/**
  The A* search loop of `algorithm`: a frontier of (f, count, spot) entries
  with a membership set, the score maps g and f, and the predecessor map
  came_from. Scores that `algorithm` initialises to `float("inf")` are
  absent from the maps here.
 */
module Engine {
  import opened Cells
  import opened Grids
  import opened Frontier
  import opened Tally
  import opened Paths

  /** Everything one run of the search keeps: the queue, `open_set_hash`,
      `g_score`, `f_score`, `came_from` and the insertion counter. */
  datatype SearchState = SearchState(
    queue: seq<Entry>,
    openHash: set<Pos>,
    g: map<Pos, nat>,
    f: map<Pos, int>,
    cameFrom: map<Pos, Pos>,
    count: nat)

  /** The state before the first iteration. The start entry is queued with
      priority 0, not with its f score. */
  function Init(start: Pos, end: Pos): SearchState
  {
    SearchState([Entry(0, 0, start)], {start}, map[start := 0], map[start := H(start, end)], map[], 0)
  }

  /** The spots that have an entry in the queue. */
  function QueueCells(q: seq<Entry>): set<Pos>
  {
    set i | 0 <= i < |q| :: q[i].cell
  }

  /** No spot is queued twice. */
  ghost predicate DistinctCells(q: seq<Entry>)
  {
    forall i, j :: 0 <= i < j < |q| ==> q[i].cell != q[j].cell
  }

  /** Every entry's counter is at most `count` and its spot has a score. */
  ghost predicate EntriesIssued(q: seq<Entry>, g: map<Pos, nat>, count: nat)
  {
    forall i :: 0 <= i < |q| ==> q[i].count <= count && q[i].cell in g
  }

  /** The frontier invariant: the membership set is exactly the queued spots,
      no spot is queued twice, counters are distinct and not above `count`,
      and every queued spot has a score. */
  ghost predicate QueueOk(q: seq<Entry>, hash: set<Pos>, g: map<Pos, nat>, count: nat)
  {
    && hash == QueueCells(q)
    && DistinctCounts(q)
    && DistinctCells(q)
    && EntriesIssued(q, g, count)
  }

  // Termination: every score is below the number of cells, so the sum over
  // all cells of (score, or the cell count for an unscored cell) plus the
  // queue length falls with every iteration.

  /** 1 on the cells scored at most v. */
  function AtMost(g: map<Pos, nat>, v: int): Pos -> nat
  {
    p => if p in g && g[p] <= v then 1 else 0
  }

  function One(): Pos -> nat
  {
    p => 1
  }

  /** The number of cells of an n x n grid. */
  function CellCount(n: nat): nat
  {
    Total(n, One())
  }

  /** A cell's score, or `cap` when it has none. */
  function Pot(g: map<Pos, nat>, cap: nat): Pos -> nat
  {
    p => if p in g then g[p] else cap
  }

  /** More than g[p] cells are scored at most g[p]. */
  ghost predicate Supported(g: map<Pos, nat>, n: nat)
  {
    forall p :: p in g ==> g[p] < Total(n, AtMost(g, g[p]))
  }

  function Measure(s: SearchState, n: nat): nat
  {
    Total(n, Pot(s.g, CellCount(n))) + |s.queue|
  }

  /** The start keeps score 0 and never gets a predecessor. */
  ghost predicate StartFixed(g: map<Pos, nat>, cameFrom: map<Pos, Pos>, start: Pos)
  {
    start in g && g[start] == 0 && start !in cameFrom
  }

  /** Every scored spot other than the start has a predecessor. */
  ghost predicate Rooted(g: map<Pos, nat>, cameFrom: map<Pos, Pos>, start: Pos)
  {
    forall p :: p in g ==> p == start || p in cameFrom
  }

  ghost predicate ScoredInBounds(g: map<Pos, nat>, n: nat)
  {
    forall p :: p in g ==> InBounds(p, n)
  }

  /** Every spot is in the neighbour list of its predecessor. */
  ghost predicate LinksFollowNeighbors(cameFrom: map<Pos, Pos>, grid: Grid)
    requires WellFormed(grid)
  {
    forall p :: p in cameFrom ==> InBounds(cameFrom[p], |grid|) && p in At(grid, cameFrom[p]).neighbors
  }

  /** f is g plus the heuristic to the goal. */
  ghost predicate FIsGPlusH(g: map<Pos, nat>, f: map<Pos, int>, end: Pos)
  {
    forall p :: (p in f <==> p in g) && (p in g ==> f[p] == g[p] + H(p, end))
  }

  /** The score invariant: the start keeps score 0 and no predecessor; every
      other scored spot has a predecessor, a neighbour with a lower score;
      f is g plus the heuristic; scores are supported. */
  ghost predicate ScoresOk(g: map<Pos, nat>, f: map<Pos, int>, cameFrom: map<Pos, Pos>,
                           grid: Grid, start: Pos, end: Pos)
    requires WellFormed(grid)
  {
    && StartFixed(g, cameFrom, start)
    && ScoredInBounds(g, |grid|)
    && Descending(cameFrom, g)
    && Rooted(g, cameFrom, start)
    && LinksFollowNeighbors(cameFrom, grid)
    && FIsGPlusH(g, f, end)
    && Supported(g, |grid|)
  }

  ghost predicate Valid(s: SearchState, grid: Grid, start: Pos, end: Pos)
  {
    && WellFormed(grid) && NeighborsInBounds(grid)
    && InBounds(start, |grid|) && InBounds(end, |grid|)
    && QueueOk(s.queue, s.openHash, s.g, s.count)
    && ScoresOk(s.g, s.f, s.cameFrom, grid, start, end)
  }

  lemma CountBelowCells(g: map<Pos, nat>, n: nat, v: int)
    ensures Total(n, AtMost(g, v)) <= CellCount(n)
  {
    TotalMono(n, AtMost(g, v), One());
  }

  lemma SupportedBound(g: map<Pos, nat>, n: nat, p: Pos)
    requires Supported(g, n) && p in g
    ensures g[p] < CellCount(n)
  {
    CountBelowCells(g, n, g[p]);
  }

  lemma InitValid(grid: Grid, start: Pos, end: Pos)
    requires WellFormed(grid) && NeighborsInBounds(grid)
    requires InBounds(start, |grid|) && InBounds(end, |grid|)
    ensures Valid(Init(start, end), grid, start, end)
  {
    var s := Init(start, end);
    TotalStrict(|grid|, p => 0, AtMost(s.g, 0), start);
    assert s.queue[0].cell == start;
    assert QueueCells(s.queue) == {start};
  }

  /** The relaxation guard `temp_g_score < g_score[neighbor]`, an absent score
      being infinite. */
  predicate Improves(s: SearchState, current: Pos, n: Pos)
    requires current in s.g
  {
    n !in s.g || s.g[current] + 1 < s.g[n]
  }

  /** The relaxation itself: `m` gets `c` as predecessor and score g[c] + 1. */
  function Link(s: SearchState, c: Pos, m: Pos, end: Pos): SearchState
    requires c in s.g
  {
    var t := s.g[c] + 1;
    s.(cameFrom := s.cameFrom[m := c], g := s.g[m := t], f := s.f[m := t + H(m, end)])
  }

  /** Queueing `m` under its f score and the next counter. */
  function Push(s: SearchState, m: Pos): SearchState
    requires m in s.f
  {
    s.(count := s.count + 1, queue := s.queue + [Entry(s.f[m], s.count + 1, m)],
       openHash := s.openHash + {m})
  }

  /** One pass of the neighbour loop body for neighbour `n` of `current`. */
  function Relax(s: SearchState, current: Pos, n: Pos, end: Pos): (r: SearchState)
    requires current in s.g
    ensures forall p :: p in s.g ==> p in r.g && r.g[p] <= s.g[p]
    ensures n in s.g && s.g[n] == 0 ==> r == s
    ensures Improves(s, current, n) ==>
              && r.cameFrom == s.cameFrom[n := current]
              && r.g == s.g[n := s.g[current] + 1]
              && r.f == s.f[n := r.g[n] + H(n, end)]
    ensures !Improves(s, current, n) ==> r == s
    ensures Improves(s, current, n) && n !in s.openHash ==>
              && r.count == s.count + 1
              && r.queue == s.queue + [Entry(r.f[n], r.count, n)]
              && r.openHash == s.openHash + {n}
    ensures !(Improves(s, current, n) && n !in s.openHash) ==>
              r.queue == s.queue && r.openHash == s.openHash && r.count == s.count
  {
    if Improves(s, current, n) then
      var r := Link(s, current, n, end);
      if n !in s.openHash then Push(r, n) else r
    else
      s
  }

  lemma QueueCellsAppend(q: seq<Entry>, e: Entry)
    ensures QueueCells(q + [e]) == QueueCells(q) + {e.cell}
  {
    var w := q + [e];
    assert w[|q|].cell == e.cell;
    forall x | x in QueueCells(q)
      ensures x in QueueCells(w)
    {
      var i :| 0 <= i < |q| && q[i].cell == x;
      assert w[i].cell == x;
    }
  }

  lemma QueueCellsRemove(q: seq<Entry>, k: int)
    requires 0 <= k < |q|
    requires forall i, j :: 0 <= i < j < |q| ==> q[i].cell != q[j].cell
    ensures QueueCells(RemoveAt(q, k)) == QueueCells(q) - {q[k].cell}
  {
    var r := RemoveAt(q, k);
    forall x | x in QueueCells(q) - {q[k].cell}
      ensures x in QueueCells(r)
    {
      var i :| 0 <= i < |q| && q[i].cell == x;
      if i < k {
        assert r[i].cell == x;
      } else {
        assert i > k && r[i - 1].cell == x;
      }
    }
    forall x | x in QueueCells(r)
      ensures x in QueueCells(q) - {q[k].cell}
    {
      var i :| 0 <= i < |r| && r[i].cell == x;
      if i < k {
        assert q[i].cell == x;
      } else {
        assert q[i + 1].cell == x;
      }
    }
  }

  /** Lowering one score to one more than another supported score keeps all
      scores supported. */
  lemma SupportedLower(g: map<Pos, nat>, n: nat, c: Pos, m: Pos)
    requires Supported(g, n) && c in g && InBounds(m, n)
    requires m !in g || g[c] + 1 < g[m]
    ensures Supported(g[m := g[c] + 1], n)
  {
    var t := g[c] + 1;
    var g' := g[m := t];
    forall p | p in g'
      ensures g'[p] < Total(n, AtMost(g', g'[p]))
    {
      if p == m {
        TotalStrict(n, AtMost(g, g[c]), AtMost(g', t), m);
      } else {
        TotalMono(n, AtMost(g, g[p]), AtMost(g', g[p]));
      }
    }
  }

  /** Queue entries stay issued as scores are added. */
  lemma IssuedGrow(q: seq<Entry>, g: map<Pos, nat>, g': map<Pos, nat>, count: nat, count': nat)
    requires EntriesIssued(q, g, count) && g.Keys <= g'.Keys && count <= count'
    ensures EntriesIssued(q, g', count')
  {
  }

  /** Pushing a spot that is not queued, under a fresh counter, keeps the
      frontier invariant. */
  lemma PushQueueOk(q: seq<Entry>, hash: set<Pos>, g: map<Pos, nat>, g': map<Pos, nat>,
                    count: nat, e: Entry)
    requires QueueOk(q, hash, g, count) && g.Keys <= g'.Keys
    requires e.cell !in hash && e.cell in g' && e.count == count + 1
    ensures QueueOk(q + [e], hash + {e.cell}, g', count + 1)
  {
    QueueCellsAppend(q, e);
    var w := q + [e];
    assert forall i :: 0 <= i < |q| ==> w[i] == q[i] && q[i].cell in QueueCells(q);
    IssuedGrow(q, g, g', count, count + 1);
  }

  lemma RelaxQueueOk(s: SearchState, current: Pos, n: Pos, end: Pos)
    requires QueueOk(s.queue, s.openHash, s.g, s.count) && current in s.g
    ensures var r := Relax(s, current, n, end); QueueOk(r.queue, r.openHash, r.g, r.count)
  {
    var r := Relax(s, current, n, end);
    if Improves(s, current, n) && n !in s.openHash {
      PushQueueOk(s.queue, s.openHash, s.g, r.g, s.count, Entry(r.f[n], r.count, n));
    } else {
      IssuedGrow(s.queue, s.g, r.g, s.count, s.count);
    }
  }

  /** A new link from `m` to `c`, with score one more than c's, keeps scores
      falling along every link. */
  lemma LinkDescends(s: SearchState, c: Pos, m: Pos, end: Pos)
    requires Descending(s.cameFrom, s.g) && c in s.g && Improves(s, c, m)
    ensures Descending(Link(s, c, m, end).cameFrom, Link(s, c, m, end).g)
  {
  }

  lemma LinkRooted(s: SearchState, start: Pos, c: Pos, m: Pos, end: Pos)
    requires StartFixed(s.g, s.cameFrom, start) && Rooted(s.g, s.cameFrom, start)
    requires c in s.g && Improves(s, c, m)
    ensures StartFixed(Link(s, c, m, end).g, Link(s, c, m, end).cameFrom, start)
    ensures Rooted(Link(s, c, m, end).g, Link(s, c, m, end).cameFrom, start)
  {
  }

  lemma LinkNeighbors(s: SearchState, grid: Grid, c: Pos, m: Pos, end: Pos)
    requires WellFormed(grid) && LinksFollowNeighbors(s.cameFrom, grid) && c in s.g
    requires InBounds(c, |grid|) && m in At(grid, c).neighbors
    ensures LinksFollowNeighbors(Link(s, c, m, end).cameFrom, grid)
  {
  }

  lemma LinkScores(s: SearchState, n: nat, c: Pos, m: Pos, end: Pos)
    requires ScoredInBounds(s.g, n) && FIsGPlusH(s.g, s.f, end) && c in s.g && InBounds(m, n)
    ensures ScoredInBounds(Link(s, c, m, end).g, n)
    ensures FIsGPlusH(Link(s, c, m, end).g, Link(s, c, m, end).f, end)
  {
  }

  lemma LinkSupported(s: SearchState, n: nat, c: Pos, m: Pos, end: Pos)
    requires Supported(s.g, n) && c in s.g && InBounds(m, n) && Improves(s, c, m)
    ensures Supported(Link(s, c, m, end).g, n)
  {
    SupportedLower(s.g, n, c, m);
  }

  /** Linking `m` to its neighbour `c`, with score one more than c's, keeps
      the score invariant. */
  lemma LinkScoresOk(s: SearchState, grid: Grid, start: Pos, end: Pos, c: Pos, m: Pos)
    requires WellFormed(grid) && ScoresOk(s.g, s.f, s.cameFrom, grid, start, end)
    requires c in s.g && Improves(s, c, m)
    requires m in At(grid, c).neighbors && InBounds(m, |grid|)
    ensures var r := Link(s, c, m, end); ScoresOk(r.g, r.f, r.cameFrom, grid, start, end)
  {
    LinkRooted(s, start, c, m, end);
    LinkDescends(s, c, m, end);
    LinkNeighbors(s, grid, c, m, end);
    LinkScores(s, |grid|, c, m, end);
    LinkSupported(s, |grid|, c, m, end);
  }

  lemma RelaxMeasure(s: SearchState, grid: Grid, start: Pos, end: Pos, current: Pos, n: Pos)
    requires WellFormed(grid) && Supported(s.g, |grid|) && current in s.g
    requires InBounds(n, |grid|)
    ensures Measure(Relax(s, current, n, end), |grid|) <= Measure(s, |grid|)
  {
    if Improves(s, current, n) {
      var N := |grid|;
      var cap := CellCount(N);
      var g' := s.g[n := s.g[current] + 1];
      SupportedLower(s.g, N, current, n);
      SupportedBound(g', N, n);
      TotalStrict(N, Pot(g', cap), Pot(s.g, cap), n);
    }
  }

  /** Relaxation keeps the invariant and never raises the measure. */
  lemma RelaxKeepsValid(s: SearchState, grid: Grid, start: Pos, end: Pos, current: Pos, n: Pos)
    requires Valid(s, grid, start, end) && current in s.g
    requires n in At(grid, current).neighbors
    ensures Valid(Relax(s, current, n, end), grid, start, end)
    ensures Measure(Relax(s, current, n, end), |grid|) <= Measure(s, |grid|)
  {
    RelaxQueueOk(s, current, n, end);
    RelaxMeasure(s, grid, start, end, current, n);
    if Improves(s, current, n) {
      LinkScoresOk(s, grid, start, end, current, n);
    }
  }

  /** `open_set.get()` followed by `open_set_hash.remove(current)`. */
  function PopAt(s: SearchState, k: int): SearchState
    requires 0 <= k < |s.queue|
  {
    s.(queue := RemoveAt(s.queue, k), openHash := s.openHash - {s.queue[k].cell})
  }

  /** Taking entry k out keeps the frontier invariant, with its spot removed
      from the membership set. */
  lemma RemoveQueueOk(q: seq<Entry>, hash: set<Pos>, g: map<Pos, nat>, count: nat, k: int)
    requires QueueOk(q, hash, g, count) && 0 <= k < |q|
    ensures QueueOk(RemoveAt(q, k), hash - {q[k].cell}, g, count)
  {
    QueueCellsRemove(q, k);
    var r := RemoveAt(q, k);
    forall i, j | 0 <= i < j < |r|
      ensures r[i].count != r[j].count && r[i].cell != r[j].cell
    {
      var i' := if i < k then i else i + 1;
      var j' := if j < k then j else j + 1;
      assert r[i] == q[i'] && r[j] == q[j'] && i' < j';
    }
    forall i | 0 <= i < |r|
      ensures r[i].count <= count && r[i].cell in g
    {
      var i' := if i < k then i else i + 1;
      assert r[i] == q[i'];
    }
  }

  /** Popping keeps the invariant and lowers the measure by one. */
  lemma PopKeepsValid(s: SearchState, grid: Grid, start: Pos, end: Pos, k: int)
    requires Valid(s, grid, start, end) && 0 <= k < |s.queue|
    ensures Valid(PopAt(s, k), grid, start, end)
    ensures s.queue[k].cell in s.g && PopAt(s, k).g == s.g
    ensures Measure(PopAt(s, k), |grid|) + 1 == Measure(s, |grid|)
  {
    RemoveQueueOk(s.queue, s.openHash, s.g, s.count, k);
  }

  // The main loop.

  /** The colours the search writes: open, closed, path and goal. */
  predicate SearchColor(c: Color)
  {
    c == Green || c == Red || c == Blue || c == Purple
  }

  /** `grid'` differs from `grid` only in colours, and only on scored spots,
      which it paints with search colours. */
  ghost predicate Painted(grid: Grid, grid': Grid, g: map<Pos, nat>)
  {
    && SameLayout(grid, grid')
    && forall p :: InBounds(p, |grid|) && At(grid', p).color != At(grid, p).color ==>
         p in g && SearchColor(At(grid', p).color)
  }

  /** Every scored spot is queued or has been expanded. */
  ghost predicate Discovered(g: map<Pos, nat>, hash: set<Pos>, expanded: seq<Pos>)
  {
    forall p :: p in g ==> p in hash || p in expanded
  }

  /** Every expanded spot is scored and so are all its neighbours. */
  ghost predicate ClosedExpanded(grid: Grid, g: map<Pos, nat>, expanded: seq<Pos>)
    requires WellFormed(grid)
  {
    forall c :: c in expanded ==>
      c in g && InBounds(c, |grid|) && forall m :: m in At(grid, c).neighbors ==> m in g
  }

  /** No scored spot has a neighbour without a score. */
  ghost predicate ClosedUnderNeighbors(grid: Grid, g: map<Pos, nat>)
    requires WellFormed(grid)
  {
    forall p :: p in g && InBounds(p, |grid|) ==> forall m :: m in At(grid, p).neighbors ==> m in g
  }

  /** The outer loop invariant. */
  ghost predicate Running(grid: Grid, grid': Grid, s: SearchState, start: Pos, end: Pos,
                          expanded: seq<Pos>)
  {
    && Valid(s, grid, start, end)
    && Painted(grid, grid', s.g)
    && Discovered(s.g, s.openHash, expanded)
    && ClosedExpanded(grid, s.g, expanded)
    && end !in expanded
  }

  /** The neighbour loop invariant, while `current` is being expanded. */
  ghost predicate Expanding(grid: Grid, grid': Grid, s: SearchState, start: Pos, end: Pos,
                            expanded: seq<Pos>, current: Pos)
  {
    && Valid(s, grid, start, end)
    && Painted(grid, grid', s.g)
    && Discovered(s.g, s.openHash, expanded + [current])
    && ClosedExpanded(grid, s.g, expanded)
    && end !in expanded && current != end && current in s.g
  }

  lemma NotAppended(xs: seq<Pos>, x: Pos, y: Pos)
    requires y !in xs && y != x
    ensures y !in xs + [x]
  {
  }

  /** Folds the parts back into `Running`. Callers that prove the parts one
      by one call this instead of unfolding `Running` in their own context,
      which keeps their proofs small. */
  lemma PackRunning(grid: Grid, grid': Grid, s: SearchState, start: Pos, end: Pos,
                    expanded: seq<Pos>)
    requires Valid(s, grid, start, end) && Painted(grid, grid', s.g)
    requires Discovered(s.g, s.openHash, expanded) && ClosedExpanded(grid, s.g, expanded)
    requires end !in expanded
    ensures Running(grid, grid', s, start, end, expanded)
  {
  }

  lemma PaintedGrow(grid: Grid, grid': Grid, g: map<Pos, nat>, g': map<Pos, nat>)
    requires Painted(grid, grid', g) && g.Keys <= g'.Keys
    ensures Painted(grid, grid', g')
  {
  }

  /** Painting a scored spot with a search colour keeps the grid painted. */
  lemma Repaint(grid: Grid, grid': Grid, g: map<Pos, nat>, p: Pos, c: Color)
    requires Painted(grid, grid', g) && p in g && InBounds(p, |grid|) && SearchColor(c)
    ensures Painted(grid, Recolor(grid', p, c), g)
  {
    SameLayoutTrans(grid, grid', Recolor(grid', p, c));
  }

  lemma DiscoveredGrow(g: map<Pos, nat>, hash: set<Pos>, expanded: seq<Pos>,
                       g': map<Pos, nat>, hash': set<Pos>, m: Pos)
    requires Discovered(g, hash, expanded)
    requires g'.Keys <= g.Keys + {m} && hash <= hash' && (m in g' ==> m in g || m in hash')
    ensures Discovered(g', hash', expanded)
  {
  }

  lemma ClosedGrow(grid: Grid, g: map<Pos, nat>, g': map<Pos, nat>, expanded: seq<Pos>)
    requires WellFormed(grid) && ClosedExpanded(grid, g, expanded) && g.Keys <= g'.Keys
    ensures ClosedExpanded(grid, g', expanded)
  {
  }

  /** Taking the minimal entry: the spot leaves the frontier and joins the
      expanded ones. */
  lemma PopStep(grid: Grid, grid': Grid, s: SearchState, start: Pos, end: Pos,
                expanded: seq<Pos>, k: int)
    requires Running(grid, grid', s, start, end, expanded) && 0 <= k < |s.queue|
    requires s.queue[k].cell != end
    ensures Expanding(grid, grid', PopAt(s, k), start, end, expanded, s.queue[k].cell)
    ensures Measure(PopAt(s, k), |grid|) + 1 == Measure(s, |grid|)
  {
    PopKeepsValid(s, grid, start, end, k);
    var s' := PopAt(s, k);
    assert Discovered(s'.g, s'.openHash, expanded + [s.queue[k].cell]);
  }

  /** `neighbor.set_state("GREEN")`, done exactly when the relaxation of
      neighbour `m` pushes it. */
  function MarkOpen(grid': Grid, s: SearchState, current: Pos, m: Pos): Grid
    requires WellFormed(grid') && current in s.g && (m !in s.openHash ==> InBounds(m, |grid'|))
  {
    if Improves(s, current, m) && m !in s.openHash then Recolor(grid', m, Green) else grid'
  }

  /** `current.set_state("RED")`, skipped for the start. */
  function MarkClosed(grid': Grid, current: Pos, start: Pos): Grid
    requires WellFormed(grid') && InBounds(current, |grid'|)
  {
    if current != start then Recolor(grid', current, Red) else grid'
  }

  /** One neighbour of `current`: relax it, and colour it open when it is
      pushed. */
  lemma RelaxStep(grid: Grid, grid': Grid, s: SearchState, start: Pos, end: Pos,
                  expanded: seq<Pos>, current: Pos, m: Pos)
    requires Expanding(grid, grid', s, start, end, expanded, current)
    requires m in At(grid, current).neighbors
    ensures WellFormed(grid') && InBounds(m, |grid'|)
    ensures Expanding(grid, MarkOpen(grid', s, current, m), Relax(s, current, m, end), start, end, expanded, current)
    ensures m in Relax(s, current, m, end).g && s.g.Keys <= Relax(s, current, m, end).g.Keys
    ensures Measure(Relax(s, current, m, end), |grid|) <= Measure(s, |grid|)
  {
    var r := Relax(s, current, m, end);
    RelaxKeepsValid(s, grid, start, end, current, m);
    PaintedGrow(grid, grid', s.g, r.g);
    if Improves(s, current, m) && m !in s.openHash {
      Repaint(grid, grid', r.g, m, Green);
    }
    DiscoveredGrow(s.g, s.openHash, expanded + [current], r.g, r.openHash, m);
    ClosedGrow(grid, s.g, r.g, expanded);
  }

  lemma CloseExpanded(grid: Grid, g: map<Pos, nat>, expanded: seq<Pos>, current: Pos)
    requires WellFormed(grid) && ClosedExpanded(grid, g, expanded)
    requires current in g && InBounds(current, |grid|)
    requires forall m :: m in At(grid, current).neighbors ==> m in g
    ensures ClosedExpanded(grid, g, expanded + [current])
  {
    forall c | c in expanded + [current]
      ensures c in g && InBounds(c, |grid|) && forall m :: m in At(grid, c).neighbors ==> m in g
    {
      if c != current {
        assert c in expanded;
      }
    }
  }

  /** With every neighbour scored, `current` joins the closed spots and is
      coloured closed unless it is the start. */
  lemma CloseStep(grid: Grid, grid': Grid, s: SearchState, start: Pos, end: Pos,
                  expanded: seq<Pos>, current: Pos)
    requires Expanding(grid, grid', s, start, end, expanded, current)
    requires forall m :: m in At(grid, current).neighbors ==> m in s.g
    ensures WellFormed(grid') && InBounds(current, |grid'|)
    ensures Running(grid, MarkClosed(grid', current, start), s, start, end, expanded + [current])
  {
    PaintClosed(grid, grid', s.g, current, start);
    CloseExpanded(grid, s.g, expanded, current);
    NotAppended(expanded, current, end);
    PackRunning(grid, MarkClosed(grid', current, start), s, start, end, expanded + [current]);
  }

  lemma PaintClosed(grid: Grid, grid': Grid, g: map<Pos, nat>, current: Pos, start: Pos)
    requires Painted(grid, grid', g) && current in g && InBounds(current, |grid|)
    ensures Painted(grid, MarkClosed(grid', current, start), g)
  {
    if current != start {
      Repaint(grid, grid', g, current, Red);
    }
  }

  /** Following `came_from` from any scored spot leads back to the start
      through neighbour links. */
  lemma {:induction false} ChainTracesBack(grid: Grid, g: map<Pos, nat>, cameFrom: map<Pos, Pos>,
                                           start: Pos, p: Pos)
    requires WellFormed(grid) && ScoredInBounds(g, |grid|) && Descending(cameFrom, g)
    requires Rooted(g, cameFrom, start) && LinksFollowNeighbors(cameFrom, grid) && p in g
    ensures BackWalk(grid, [p] + Chain(cameFrom, g, p))
    ensures ([p] + Chain(cameFrom, g, p))[|Chain(cameFrom, g, p)|] == start
    decreases g[p]
  {
    if p in cameFrom {
      var c := cameFrom[p];
      ChainTracesBack(grid, g, cameFrom, start, c);
      assert Chain(cameFrom, g, p) == [c] + Chain(cameFrom, g, c);
      BackWalkCons(grid, p, [c] + Chain(cameFrom, g, c));
    }
  }

  /** After a successful search: the goal is coloured as the goal, every
      spot of its predecessor chain as the path, and the goal followed by
      that chain runs back to the start through neighbour links. */
  ghost predicate PathMarked(grid: Grid, grid': Grid, s: SearchState, start: Pos, end: Pos)
    requires Valid(s, grid, start, end) && SameLayout(grid, grid')
  {
    var b := [end] + Chain(s.cameFrom, s.g, end);
    && At(grid', end).color == Purple
    && (forall p :: p in Chain(s.cameFrom, s.g, end) && InBounds(p, |grid|) ==> At(grid', p).color == Blue)
    && BackWalk(grid, b)
    && b[|b| - 1] == start
  }

  /** After a failed search: the frontier is empty, the goal has no score,
      and the scored spots are closed under neighbour links. */
  ghost predicate Exhausted(grid: Grid, s: SearchState, end: Pos)
    requires WellFormed(grid)
  {
    s.queue == [] && end !in s.g && ClosedUnderNeighbors(grid, s.g)
  }

  lemma ExhaustedStep(grid: Grid, grid': Grid, s: SearchState, start: Pos, end: Pos,
                      expanded: seq<Pos>)
    requires Running(grid, grid', s, start, end, expanded) && s.queue == []
    ensures Exhausted(grid, s, end)
  {
    assert QueueCells(s.queue) == {};
    forall p | p in s.g && InBounds(p, |grid|)
      ensures forall m :: m in At(grid, p).neighbors ==> m in s.g
    {
      assert p in expanded;
    }
  }

  lemma LinksInBounds(s: SearchState, grid: Grid, start: Pos, end: Pos)
    requires Valid(s, grid, start, end)
    ensures forall p :: p in s.cameFrom ==> InBounds(s.cameFrom[p], |grid|)
  {
  }

  /** The path colour goes on scored spots only, and the goal colour on a
      scored goal, so the grid stays painted. */
  lemma PaintPath(grid: Grid, grid1: Grid, grid2: Grid, g: map<Pos, nat>, end: Pos,
                  marked: seq<Pos>)
    requires Painted(grid, grid1, g) && end in g && InBounds(end, |grid|)
    requires forall p :: p in marked ==> p in g
    requires SameLayout(grid1, grid2)
    requires forall p :: InBounds(p, |grid1|) ==>
               At(grid2, p).color == if p in marked then Blue else At(grid1, p).color
    ensures Painted(grid, grid2, g)
    ensures Painted(grid, Recolor(grid2, end, Purple), g)
  {
    SameLayoutTrans(grid, grid1, grid2);
    Repaint(grid, grid2, g, end, Purple);
  }

  /** Marking the path and then the goal leaves the grid painted and the
      path marked. */
  lemma FoundStep(grid: Grid, grid1: Grid, grid2: Grid, s: SearchState, start: Pos, end: Pos,
                  marked: seq<Pos>)
    requires Valid(s, grid, start, end) && Painted(grid, grid1, s.g) && end in s.g
    requires marked == Chain(s.cameFrom, s.g, end) && SameLayout(grid1, grid2)
    requires forall p :: InBounds(p, |grid1|) ==>
               At(grid2, p).color == if p in marked then Blue else At(grid1, p).color
    ensures Painted(grid, Recolor(grid2, end, Purple), s.g)
    ensures PathMarked(grid, Recolor(grid2, end, Purple), s, start, end)
  {
    ChainDescends(s.cameFrom, s.g, end);
    PaintPath(grid, grid1, grid2, s.g, end, marked);
    ChainTracesBack(grid, s.g, s.cameFrom, start, end);
  }

  /** Every spot of `ps` is scored. */
  ghost predicate AllScored(ps: seq<Pos>, g: map<Pos, nat>)
  {
    forall p :: p in ps ==> p in g
  }

  lemma AllScoredStep(ps: seq<Pos>, i: int, g: map<Pos, nat>, g': map<Pos, nat>)
    requires 0 <= i < |ps| && AllScored(ps[..i], g) && g.Keys <= g'.Keys && ps[i] in g'
    ensures AllScored(ps[..i + 1], g')
  {
    assert ps[..i + 1] == ps[..i] + [ps[i]];
  }

  lemma AllScoredWhole(ps: seq<Pos>, g: map<Pos, nat>)
    requires AllScored(ps[..|ps|], g)
    ensures forall m :: m in ps ==> m in g
  {
    assert ps[..|ps|] == ps;
  }

  /** The `for neighbor in current.neighbors` loop of `algorithm`: relax each
      neighbour in list order, colouring the ones pushed as open. */
  method ExpandNeighbors(grid: Grid, grid': Grid, s: SearchState, start: Pos, end: Pos,
                         ghost expanded: seq<Pos>, current: Pos)
    returns (grid'': Grid, s': SearchState)
    requires Expanding(grid, grid', s, start, end, expanded, current)
    ensures Expanding(grid, grid'', s', start, end, expanded, current)
    ensures forall m :: m in At(grid, current).neighbors ==> m in s'.g
    ensures Measure(s', |grid|) <= Measure(s, |grid|)
  {
    var nbrs := At(grid, current).neighbors;
    grid'', s' := grid', s;
    var i := 0;
    while i < |nbrs|
      invariant i <= |nbrs|
      invariant Expanding(grid, grid'', s', start, end, expanded, current)
      invariant AllScored(nbrs[..i], s'.g)
      invariant Measure(s', |grid|) <= Measure(s, |grid|)
    {
      var m := nbrs[i];
      RelaxStep(grid, grid'', s', start, end, expanded, current, m);
      var r := Relax(s', current, m, end);
      AllScoredStep(nbrs, i, s'.g, r.g);
      grid'', s' := MarkOpen(grid'', s', current, m), r;
      i := i + 1;
    }
    AllScoredWhole(nbrs, s'.g);
  }

  /** Appending the goal to expansions that lack it makes it the last and
      only occurrence. */
  lemma LastExpansion(expanded: seq<Pos>, end: Pos)
    requires end !in expanded
    ensures var e := expanded + [end];
            end in e && e[|e| - 1] == end && e[..|e| - 1] == expanded && end !in e[..|e| - 1]
  {
    assert (expanded + [end])[..|expanded|] == expanded;
  }

  /** `algorithm`: A* from `start` to `end` over the neighbour lists of
      `grid`. Returns whether `end` was reached, the recoloured grid, the
      spots in the order they were expanded, and the final search state. */
  method Algorithm(grid: Grid, start: Pos, end: Pos)
    returns (found: bool, grid': Grid, expanded: seq<Pos>, s: SearchState)
    requires WellFormed(grid) && NeighborsInBounds(grid)
    requires InBounds(start, |grid|) && InBounds(end, |grid|)
    ensures Valid(s, grid, start, end) && Painted(grid, grid', s.g)
    ensures found <==> end in expanded
    ensures found ==> expanded[|expanded| - 1] == end && end !in expanded[..|expanded| - 1]
    ensures found ==> PathMarked(grid, grid', s, start, end)
    ensures !found ==> Exhausted(grid, s, end)
    ensures ClosedExpanded(grid, s.g, if found then expanded[..|expanded| - 1] else expanded)
  {
    s := Init(start, end);
    InitValid(grid, start, end);
    grid' := grid;
    expanded := [];
    while |s.queue| > 0
      invariant Running(grid, grid', s, start, end, expanded)
      decreases Measure(s, |grid|)
    {
      var k, e, rest := PopMin(s.queue);
      var current := e.cell;
      if current == end {
        PopKeepsValid(s, grid, start, end, k);
        s := s.(queue := rest, openHash := s.openHash - {current});
        LinksInBounds(s, grid, start, end);
        var grid2, marked := ReconstructPath(grid', s.cameFrom, s.g, end);
        FoundStep(grid, grid', grid2, s, start, end, marked);
        grid' := Recolor(grid2, end, Purple);
        LastExpansion(expanded, end);
        expanded := expanded + [end];
        found := true;
        return;
      }
      PopStep(grid, grid', s, start, end, expanded, k);
      s := s.(queue := rest, openHash := s.openHash - {current});
      grid', s := ExpandNeighbors(grid, grid', s, start, end, expanded, current);
      CloseStep(grid, grid', s, start, end, expanded, current);
      grid' := MarkClosed(grid', current, start);
      expanded := expanded + [current];
    }
    ExhaustedStep(grid, grid', s, start, end, expanded);
    found := false;
  }

  // What the outcome means for paths through the grid.

  /** `w` runs forwards through neighbour links: each entry is in the
      neighbour list of the entry before it. */
  ghost predicate Walk(grid: Grid, w: seq<Pos>)
    requires WellFormed(grid)
  {
    && (forall i :: 0 <= i < |w| ==> InBounds(w[i], |grid|))
    && (forall i :: 0 <= i < |w| - 1 ==> w[i + 1] in At(grid, w[i]).neighbors)
  }

  /** A walk that starts on a scored spot never leaves a set of scored spots
      closed under neighbour links. */
  lemma {:induction false} WalkStaysScored(grid: Grid, g: map<Pos, nat>, w: seq<Pos>, k: nat)
    requires WellFormed(grid) && ClosedUnderNeighbors(grid, g) && Walk(grid, w)
    requires 0 < |w| && w[0] in g && k < |w|
    ensures w[k] in g
  {
    if k > 0 {
      WalkStaysScored(grid, g, w, k - 1);
      assert w[k] in At(grid, w[k - 1]).neighbors;
    }
  }

  /** When the search gives up, no walk along the neighbour lists leads from
      the start to the goal. */
  lemma NoPathWhenExhausted(grid: Grid, s: SearchState, start: Pos, end: Pos, w: seq<Pos>)
    requires Valid(s, grid, start, end) && Exhausted(grid, s, end)
    requires Walk(grid, w) && 0 < |w| && w[0] == start
    ensures end !in w
  {
    if end in w {
      var k :| 0 <= k < |w| && w[k] == end;
      WalkStaysScored(grid, s.g, w, k);
    }
  }

  /** When the search succeeds on a grid whose neighbour lists are fresh, the
      marked path moves one orthogonal step at a time and never crosses a
      wall. */
  lemma FoundPathSteps(grid: Grid, grid': Grid, s: SearchState, start: Pos, end: Pos)
    requires Valid(s, grid, start, end) && SameLayout(grid, grid') && Refreshed(grid)
    requires PathMarked(grid, grid', s, start, end)
    ensures var b := [end] + Chain(s.cameFrom, s.g, end);
            && (forall i :: 0 <= i < |b| - 1 ==> H(b[i], b[i + 1]) == 1)
            && (forall i :: 0 <= i < |b| - 1 ==> !IsState(At(grid, b[i]), Black))
  {
    BackWalkSteps(grid, [end] + Chain(s.cameFrom, s.g, end));
  }
}
