# A* grid search, modelled in Dafny

This project models the search core of an A* path-finding visualiser
(`Astar.py`). The modelled grid is a square of spots. Each spot has a
position, a colour and a list of neighbours. The colour doubles as the
spot's search state: free, wall, open, closed, path or goal.

The modelled search runs from a start spot to an end spot. It keeps four
structures:
- a priority queue of `(f, count, spot)` entries;
- a membership set `open_set_hash`;
- the score maps `g_score` and `f_score`;
- the predecessor map `came_from`.

When the end spot is reached, the path is reconstructed by following
`came_from` back from it.

The project has one module per concern, each in its own file:

- `Cells` (cells.dfy): the colour palette and positions. It also covers the
  `Spot` record with `get_pos`, `is_state`, `set_state`, `reset` and
  `__lt__`, and the Manhattan heuristic `h`.
- `Grids` (grids.dfy): the grid as `seq<seq<Spot>>` and `make_grid`. It also
  covers `update_neighbors` (the probe order is down, up, left, right) and
  the refresh of every spot's neighbour list, which runs before a search.
- `Frontier` (frontier.dfy): the priority queue. It is modelled as a
  sequence of entries under Python's tuple order, and `get` is modelled as a
  minimum scan.
- `Tally` (tally.dfy): sums over the cells of a grid. The termination
  argument of the search uses them.
- `Paths` (paths.dfy): the `came_from` chain and `reconstruct_path`.
- `Engine` (engine.dfy): `algorithm`. This includes its state, one
  relaxation step, the loop invariants, and what the result means.

The colour tuples of the `COLOR` table in `Astar.py` become the enum
`Cells.Color`. `algorithm` starts every score at `float("inf")`; here, a spot with an
infinite score is simply absent from the `g` and `f` maps. The `draw`
callback is a no-op. `Algorithm` also returns the spots it expanded, in
order, and its final search state, so that contracts can speak about them.

Termination of the search loop is proved without a fuel bound. No score
can reach the number of cells: for every scored spot `p`, more than
`g[p]` spots are scored at most `g[p]`. The loop measure is the sum over
all cells of their score, or of that cap when the cell has no score, plus
the length of the queue. A relaxation never raises this measure, and a
pop lowers it by one.

Where the code differs from a plain description of A*, the model follows
the code:
- The queue is seeded with priority 0, not with `f[start]`.
- A search whose start equals its end pops the start and returns `True` at
  once. Nothing is painted except the end spot, which becomes purple.
- `reconstruct_path` colours every spot of the chain blue, including the
  start. Only the end spot is recoloured afterwards.
- The QUIT poll inside the loop calls `pygame.quit()` and does not leave
  the loop. The run then aborts with a `pygame.error` at the next drawing
  call (`draw()` in the loop or in `reconstruct_path`) or at the next event
  poll. That abort path belongs to the display and is left out with `draw`,
  so the model has no cancellation.

## Model

| member | source | states |
|---|---|---|
| Cells.GetPos | Astar.py:35-36 | the spot's (row, col) pair |
| Cells.IsState | Astar.py:38-39 | holds exactly when the spot's colour is the given one |
| Cells.SpotLess | Astar.py:63-64 | no spot is ever smaller than another |
| Cells.SetState | Astar.py:44-45 | the spot then has exactly the given colour; its position, neighbours and grid size are unchanged |
| Cells.Reset | Astar.py:41-42 | the spot becomes white and nothing else about it changes |
| Cells.H | Astar.py:67-70 | the Manhattan distance is never negative and is zero exactly when the two positions are equal |
| Cells.HSymmetric | Astar.py:67-70 | h(a, b) == h(b, a) |
| Cells.HConsistent | Astar.py:67-70 | one orthogonal step changes the distance to any goal by at most one, in either direction |
| Cells.SlotIsUnitDistance | Astar.py:52-62 | the four probe slots (down, up, left, right) are exactly the positions at Manhattan distance one |
| Grids.MakeGrid | Astar.py:117-125 | rows rows of rows spots each; spot [i][j] has row i, col j, colour white, no neighbours and grid size rows |
| Grids.Recolor | Astar.py:44-45 | set_state on one spot of the grid: only that spot's colour changes, and the grid's layout and neighbour lists stay the same |
| Grids.ProbeFindsSlot | Astar.py:52-53 | one guarded probe yields a position exactly when it is in bounds, one step away, not a wall, and in the probed slot |
| Grids.ScanMember | Astar.py:50-62 | a position is produced by the four probes exactly when it is in bounds, at distance one and not a wall |
| Grids.ScanInSlotOrder | Astar.py:50-62 | the probes produce their positions in the order down, up, left, right |
| Grids.Neighbors | Astar.py:50-62 | the neighbour list holds exactly the in-bounds, non-wall spots at distance one, in the order down, up, left, right, and has at most four entries |
| Grids.NeighborsReadColors | Astar.py:50-62 | the neighbour list depends only on the spot's position and on whether each probed spot is a wall |
| Grids.UpdateNeighbors | Astar.py:50-62 | only the neighbour list changes; afterwards it holds exactly the adjacent non-wall spots |
| Grids.RefreshAll | Astar.py:194-196 | every spot of the grid gets its neighbour list recomputed from the grid as it stands; the size is unchanged |
| Grids.RefreshAllRefreshes | Astar.py:194-196 | the refresh keeps every colour, and each neighbour list then agrees with the refreshed grid |
| Grids.RefreshIdempotent | Astar.py:194-196 | refreshing twice gives the same grid as refreshing once |
| Grids.RefreshedNeighbors | Astar.py:50-62 | in a refreshed grid, every neighbour is in bounds, at distance one and not a wall |
| Grids.RefreshedNeighborsInBounds | Astar.py:194-197 | a refreshed grid meets the search's precondition that all neighbours lie on the grid |
| Frontier.TieBreakUnused | Astar.py:63-64 | with distinct counters the tuple order is decided by (f, count) alone and is total, so `__lt__` is never consulted |
| Frontier.MinUnique | Astar.py:88 | with distinct counters there is only one minimal entry, so `get` returns it whatever the heap layout |
| Frontier.PopMin | Astar.py:88 | returns an entry no other entry precedes, and the queue without it; with distinct counters the entry is strictly first by (f, count) |
| Paths.Chain | Astar.py:111-113 | the predecessor chain is empty exactly when the spot has no predecessor; otherwise it starts at the predecessor and ends at a spot with none |
| Paths.ChainDescends | Astar.py:111-113 | every spot on the chain is scored, with a score below that of the spot it starts from |
| Paths.ReconstructPath | Astar.py:111-115 | terminates, colours blue exactly the spots of the came_from chain from end, leaves every other colour alone, and keeps the grid's layout |
| Paths.BackWalkSteps | Astar.py:94-97 | on a refreshed grid, consecutive spots of a walk along neighbour lists are one orthogonal step apart and none is a wall |
| Engine.InitValid | Astar.py:73-82 | the initial state meets the invariant: start queued with counter 0, g[start] = 0, f[start] = h(start, end), no predecessors |
| Engine.Init | Astar.py:73-82 | the state before the loop: the start queued with priority 0 and counter 0, the membership set holding the start, g[start] = 0, f[start] = h(start, end), no predecessors |
| Engine.MarkOpen | Astar.py:104 | the neighbour turns green exactly when its relaxation pushed it onto the queue; every other spot keeps its colour |
| Engine.MarkClosed | Astar.py:107-108 | the expanded spot turns red unless it is the start |
| Engine.Relax | Astar.py:94-104 | scores only fall; when the tentative score is lower, came_from, g and f are set; the spot is pushed with the next counter exactly when it is not yet queued; otherwise the state is unchanged, and a spot of score 0 is never touched |
| Engine.RelaxQueueOk | Astar.py:100-103 | after a relaxation the membership set still equals the set of queued spots, no spot is queued twice, and the counters stay distinct |
| Engine.LinkDescends | Astar.py:95-98 | after a new link, g still strictly decreases along every came_from link |
| Engine.LinkRooted | Astar.py:95-97 | g[start] stays 0, start never gets a predecessor, and every other scored spot has one |
| Engine.LinkScoresOk | Astar.py:95-99 | a new link keeps the whole score invariant: f = g + h, scores on the grid, links along neighbour lists |
| Engine.RelaxKeepsValid | Astar.py:94-104 | one relaxation keeps the search invariant and never raises the termination measure |
| Engine.PopKeepsValid | Astar.py:88-89 | popping the minimal entry and removing its spot from the membership set keeps the invariant and lowers the measure by one |
| Engine.PopStep | Astar.py:88-89 | after a pop that is not the end, the popped spot is scored and the neighbour loop may start |
| Engine.RelaxStep | Astar.py:94-104 | one neighbour iteration, with its green colouring, keeps the expansion invariant and leaves the neighbour scored |
| Engine.ExpandNeighbors | Astar.py:94-104 | after the neighbour loop every neighbour of the current spot is scored, the invariant holds, and the measure has not risen |
| Engine.CloseStep | Astar.py:107-108 | colouring the current spot red, unless it is the start, keeps the outer invariant with the spot counted as expanded |
| Engine.ChainTracesBack | Astar.py:111-113 | from any scored spot, the came_from chain walks back along neighbour lists and ends at the start |
| Engine.FoundStep | Astar.py:90-93 | after reconstruction and the purple end, the end is purple, the chain is blue, and the chain leads back to the start |
| Engine.ExhaustedStep | Astar.py:84-109 | when the queue runs empty, the end has no score and the scored spots are closed under neighbour lists |
| Engine.Algorithm | Astar.py:72-109 | terminates; returns True exactly when the end was popped, and then as the last expansion; every spot expanded before that had all its neighbours scored; on True the path is marked; on False the queue is empty and the end was never reached |
| Engine.NoPathWhenExhausted | Astar.py:84-109 | when the search returns False, no walk along neighbour lists leads from the start to the end |
| Engine.FoundPathSteps | Astar.py:90-93 | on a refreshed grid, the marked path moves one orthogonal step at a time and crosses no wall |

## Left out

- Rendering: the window, the RGB table, `Spot.draw`, `draw_grid` and `draw`. Colours are an enum, and the `draw` callback does nothing.
- Pixel geometry: `x`, `y` and `width` on a spot, and the `gap` computed in `make_grid`. None of them affects the search.
- The `pygame.event.get()` / QUIT poll inside the search loop. It is window I/O. A QUIT does not stop the search by itself; it shuts the display down, and the run then ends with an uncaught `pygame.error` at the next `draw()` or event poll. The model has no such abort: `draw` is a no-op and the poll is gone.
- `main`, its mouse and keyboard handling, and `get_clicked_pos`. This is interactive input handling. Only its refresh of every neighbour list is modelled, as `Grids.RefreshAll`.
- The heap layout of `PriorityQueue`. The queue is a sequence and `get` is a minimum scan. With distinct counters the minimum is unique, so the entry returned is the same.
- Optimality of the returned path. The code does not promise it, and the model proves only that the path is a valid walk back to the start.
- Grids.MakeGrid: requires at least one row, because `width // rows` in `make_grid` fails on zero rows.
- Engine.Algorithm: takes the start and end as positions on the grid (`requires InBounds(start, …)` and `InBounds(end, …)`). `main` calls `algorithm` on SPACE even while `start` or `end` is still `None` (Astar.py:158-159, 193-197), and that run crashes with an `AttributeError` on `get_pos()` at Astar.py:80. That error path is excluded by the requires and not modelled.
- Engine.Algorithm: requires every neighbour list to stay on the grid. `algorithm` would fail on a score lookup for an off-grid spot; a grid refreshed as `main` does it meets this, by `Grids.RefreshedNeighborsInBounds`.
