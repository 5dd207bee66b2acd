/**
  The frontier of the search: a min-priority queue of (f, count, spot)
  entries, as `algorithm` in Astar.py keeps them in a `PriorityQueue`. The
  queue is a sequence; `PopMin` returns an entry no other entry is smaller
  than in Python's tuple order.
 */
module Frontier {
  import opened Cells

  /** A queue entry: priority, insertion counter, and the spot it names. */
  datatype Entry = Entry(f: int, count: nat, cell: Pos)

  /** Python's lexicographic tuple order on (f, count, spot); the spots
      themselves compare with `SpotLess`. */
  predicate EntryLess(a: Entry, b: Entry)
  {
    || a.f < b.f
    || (a.f == b.f && (a.count < b.count || (a.count == b.count && SpotLess(a.cell, b.cell))))
  }

  /** The order on the (f, count) key alone. */
  predicate KeyLess(a: Entry, b: Entry)
  {
    a.f < b.f || (a.f == b.f && a.count < b.count)
  }

  /** No two entries carry the same counter. */
  predicate DistinctCounts(q: seq<Entry>)
  {
    forall i, j :: 0 <= i < j < |q| ==> q[i].count != q[j].count
  }

  /** Entry k is minimal: no entry is strictly smaller. */
  predicate IsMin(q: seq<Entry>, k: int)
  {
    0 <= k < |q| && forall i :: 0 <= i < |q| ==> !EntryLess(q[i], q[k])
  }

  /** With distinct counters the spot comparison is never reached: the tuple
      order is decided by (f, count) alone, and any two entries are ordered
      one way or the other. */
  lemma TieBreakUnused(q: seq<Entry>, i: int, j: int)
    requires DistinctCounts(q) && 0 <= i < |q| && 0 <= j < |q| && i != j
    ensures EntryLess(q[i], q[j]) <==> KeyLess(q[i], q[j])
    ensures EntryLess(q[i], q[j]) || EntryLess(q[j], q[i])
  {
  }

  /** With distinct counters the minimum is unique, so whichever heap layout
      the queue uses, `get` returns the same entry. */
  lemma MinUnique(q: seq<Entry>, k1: int, k2: int)
    requires DistinctCounts(q) && IsMin(q, k1) && IsMin(q, k2)
    ensures k1 == k2
  {
    if k1 != k2 {
      TieBreakUnused(q, k1, k2);
    }
  }

  /** The queue with entry k taken out, the others in their order. */
  function RemoveAt(q: seq<Entry>, k: int): (r: seq<Entry>)
    requires 0 <= k < |q|
    ensures |r| == |q| - 1
    ensures forall i :: 0 <= i < |r| ==> r[i] == if i < k then q[i] else q[i + 1]
  {
    q[..k] + q[k + 1..]
  }

  /** `PriorityQueue.get` on a non-empty queue: returns a minimal entry and
      the queue without it. */
  method PopMin(q: seq<Entry>) returns (k: nat, e: Entry, rest: seq<Entry>)
    requires |q| > 0
    ensures k < |q| && e == q[k] && rest == RemoveAt(q, k)
    ensures IsMin(q, k)
    ensures DistinctCounts(q) ==> forall i :: 0 <= i < |q| && i != k ==> KeyLess(e, q[i])
  {
    k := 0;
    var i := 1;
    while i < |q|
      invariant 1 <= i <= |q| && k < i
      invariant forall a :: 0 <= a < i ==> !EntryLess(q[a], q[k])
    {
      if EntryLess(q[i], q[k]) {
        k := i;
      }
      i := i + 1;
    }
    e := q[k];
    rest := RemoveAt(q, k);
  }
}
