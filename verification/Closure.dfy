/** The worklist that both closures of the lineage compiler run, and the set it computes. */
module Closure {
  import opened Sorting

  type Path = string

  /** All direct successors of the members of s. */
  function Image(next: Path -> set<Path>, s: set<Path>): set<Path> {
    set p, q | p in s && q in next(p) :: q
  }

  ghost predicate ClosedUnder(next: Path -> set<Path>, s: set<Path>) {
    forall p | p in s :: next(p) <= s
  }

  /** `s` is the least set that contains the seeds and the successors of its members. */
  ghost predicate IsReach(next: Path -> set<Path>, seeds: set<Path>, s: set<Path>) {
    && seeds <= s && ClosedUnder(next, s)
    && forall t | seeds <= t && ClosedUnder(next, t) :: s <= t
  }

  lemma ReachUnique(next: Path -> set<Path>, seeds: set<Path>, s: set<Path>, t: set<Path>)
    requires IsReach(next, seeds, s) && IsReach(next, seeds, t)
    ensures s == t
  {
  }

  /** The state of a worklist: what is visited, and what is still queued, duplicates and all. */
  ghost predicate Draining(next: Path -> set<Path>, seeds: set<Path>, visited: set<Path>, queue: seq<Path>) {
    && seeds <= visited + Elements(queue)
    && (forall p | p in visited :: next(p) <= visited + Elements(queue))
    && forall t | seeds <= t && ClosedUnder(next, t) :: visited + Elements(queue) <= t
  }

  lemma DrainStarts(next: Path -> set<Path>, queue: seq<Path>)
    ensures Draining(next, Elements(queue), {}, queue)
  {
  }

  /** A queue entry seen before is dropped. */
  lemma DrainSkips(next: Path -> set<Path>, seeds: set<Path>, visited: set<Path>, queue: seq<Path>)
    requires Draining(next, seeds, visited, queue) && queue != [] && queue[0] in visited
    ensures Draining(next, seeds, visited, queue[1..])
  {
    QueueSplits(queue);
  }

  /** A new one is visited and its successors are queued, in any order and multiplicity. */
  lemma DrainVisits(next: Path -> set<Path>, seeds: set<Path>, visited: set<Path>, queue: seq<Path>, more: seq<Path>)
    requires Draining(next, seeds, visited, queue) && queue != [] && Elements(more) == next(queue[0])
    ensures Draining(next, seeds, visited + {queue[0]}, queue[1..] + more)
  {
    QueueSplits(queue);
    assert Elements(queue[1..] + more) == Elements(queue[1..]) + Elements(more);
    hide Elements;
    forall t | seeds <= t && ClosedUnder(next, t) ensures visited + {queue[0]} + Elements(queue[1..] + more) <= t {
      assert queue[0] in t;
    }
  }

  lemma QueueSplits(queue: seq<Path>)
    requires queue != []
    ensures Elements(queue) == {queue[0]} + Elements(queue[1..])
  {
    assert queue == [queue[0]] + queue[1..];
  }

  lemma DrainEnds(next: Path -> set<Path>, seeds: set<Path>, visited: set<Path>)
    requires Draining(next, seeds, visited, [])
    ensures IsReach(next, seeds, visited)
  {
    assert visited + Elements([]) == visited;
  }
}
