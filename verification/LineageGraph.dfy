/** Edges of the lineage graph, which the compiler writes and the update gate compares. */
module LineageGraph {
  import opened Sorting
  import opened TextOrder

  datatype Edge = Edge(source: string, target: string, kind: string)

  /** The order of Python's `sorted` on (source, target, type) tuples. */
  predicate EdgeLess(a: Edge, b: Edge) {
    || Less(a.source, b.source)
    || (a.source == b.source && (Less(a.target, b.target) || (a.target == b.target && Less(a.kind, b.kind))))
  }

  lemma EdgesAreOrdered()
    ensures StrictTotal(EdgeLess)
  {
    hide Less;
    TextIsOrdered();
  }

  /** `sorted(edges)`. */
  function SortEdges(s: set<Edge>): (r: seq<Edge>)
    ensures Ascending(r, EdgeLess) && Elements(r) == s
  {
    EdgesAreOrdered();
    Sort(s, EdgeLess)
  }
}
