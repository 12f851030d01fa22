/** config/deployment/agent2_lineage_status.py: the bounded breadth-first search over artifact edges.

    One SQL query per node returns at most 257 of its rows. A row of `artifact_edges` is keyed by
    (parent, child, relation), so one child can take several of those rows.
 */
module LineageStatus {
  import opened Sorting
  import opened TextOrder

  type Id = string
  datatype Row = Row(child: Id, relation: string)
  type Edges = map<Id, set<Row>>

  const PAGE_LIMIT := 257
  const NODE_LIMIT := 256
  const DEPTH := 8

  function Rows(edges: Edges, parent: Id): set<Row> {
    if parent in edges then edges[parent] else {}
  }

  function Children(rows: set<Row>): set<Id> {
    set r | r in rows :: r.child
  }

  /** What `SELECT ... LIMIT 257` may answer: all rows, or any 257 of them. */
  ghost predicate IsPage(rows: set<Row>, page: set<Row>) {
    page <= rows && |page| == if |rows| <= PAGE_LIMIT then |rows| else PAGE_LIMIT
  }

  ghost predicate Answers(edges: Edges, page: Id -> set<Row>) {
    forall parent :: IsPage(Rows(edges, parent), page(parent))
  }

  /** The edges a search follows through pages, and the edges there are. */
  function Paged(page: Id -> set<Row>): Id -> set<Id> {
    p => Children(page(p))
  }

  function Full(edges: Edges): Id -> set<Id> {
    p => Children(Rows(edges, p))
  }

  // ------------------------------------------------------------------ reachability in n steps

  function Step(next: Id -> set<Id>, nodes: set<Id>): set<Id> {
    set p, c | p in nodes && c in next(p) :: c
  }

  /** The nodes at most n edges away from the roots. */
  function Within(next: Id -> set<Id>, roots: set<Id>, n: nat): set<Id> {
    if n == 0 then roots else
      var w := Within(next, roots, n - 1);
      w + Step(next, w)
  }

  lemma {:induction false} WithinGrows(next: Id -> set<Id>, roots: set<Id>, m: nat, n: nat)
    requires m <= n
    ensures Within(next, roots, m) <= Within(next, roots, n)
    decreases n
  {
    if m < n { WithinGrows(next, roots, m, n - 1); }
  }

  lemma WithinNext(next: Id -> set<Id>, roots: set<Id>, n: nat)
    ensures Within(next, roots, n + 1) == Within(next, roots, n) + Step(next, Within(next, roots, n))
  {
  }

  lemma {:induction false} WithinSettles(next: Id -> set<Id>, roots: set<Id>, m: nat, n: nat)
    requires m <= n && Step(next, Within(next, roots, m)) <= Within(next, roots, m)
    ensures Within(next, roots, n) == Within(next, roots, m)
    decreases n
  {
    hide Step;
    if m < n { WithinSettles(next, roots, m, n - 1); }
  }

  lemma StepOfUnion(next: Id -> set<Id>, nodes: set<Id>, p: Id)
    ensures Step(next, nodes + {p}) == Step(next, nodes) + next(p)
  {
  }

  lemma StepMonotone(narrow: Id -> set<Id>, wide: Id -> set<Id>, a: set<Id>, b: set<Id>)
    requires a <= b && forall p | p in a :: narrow(p) <= wide(p)
    ensures Step(narrow, a) <= Step(wide, b)
  {
  }

  // ------------------------------------------------------------------ the search

  function RootsOf(original: string, bound: string): seq<Id> {
    (if original != "" then [original] else []) + (if bound != "" then [bound] else [])
  }

  /** A walk from a root along edges. */
  ghost predicate Walk(next: Id -> set<Id>, original: string, bound: string, path: seq<Id>) {
    && path != [] && path[0] != "" && (path[0] == original || path[0] == bound)
    && forall k | 0 < k < |path| :: path[k] in next(path[k - 1])
  }

  lemma RootsExactly(original: string, bound: string, id: Id)
    ensures id in Elements(RootsOf(original, bound)) <==> id != "" && (id == original || id == bound)
  {
  }

  /** A walk of at most n edges ends at the node. */
  ghost predicate WalksTo(next: Id -> set<Id>, original: string, bound: string, n: nat, id: Id) {
    exists path :: Walk(next, original, bound, path) && |path| <= n + 1 && path[|path| - 1] == id
  }

  /** What the search reaches is what a walk of at most eight edges reaches. */
  lemma ReachedByWalk(next: Id -> set<Id>, original: string, bound: string, id: Id)
    ensures id in Within(next, Elements(RootsOf(original, bound)), DEPTH) <==> WalksTo(next, original, bound, 8, id)
  {
    hide Within, RootsOf, WalksTo;
    WithinIsWalk(next, original, bound, 8, id);
  }

  lemma {:induction false} WithinIsWalk(next: Id -> set<Id>, original: string, bound: string, n: nat, id: Id)
    ensures id in Within(next, Elements(RootsOf(original, bound)), n) <==> WalksTo(next, original, bound, n, id)
  {
    hide RootsOf, WalksTo;
    if n == 0 {
      RootsExactly(original, bound, id);
      NoEdges(next, original, bound, id);
    } else {
      var fewer := n - 1;
      var near := Within(next, Elements(RootsOf(original, bound)), fewer);
      forall p ensures p in near <==> WalksTo(next, original, bound, fewer, p) { WithinIsWalk(next, original, bound, fewer, p); }
      OneMoreEdge(next, original, bound, n, id);
    }
  }

  lemma NoEdges(next: Id -> set<Id>, original: string, bound: string, id: Id)
    ensures WalksTo(next, original, bound, 0, id) <==> id != "" && (id == original || id == bound)
  {
    if id != "" && (id == original || id == bound) { assert Walk(next, original, bound, [id]); }
  }

  lemma OneMoreEdge(next: Id -> set<Id>, original: string, bound: string, n: nat, id: Id)
    requires n > 0
    ensures WalksTo(next, original, bound, n, id) <==>
              WalksTo(next, original, bound, n - 1, id) || exists p :: WalksTo(next, original, bound, n - 1, p) && id in next(p)
  {
    if p :| WalksTo(next, original, bound, n - 1, p) && id in next(p) {
      var path :| Walk(next, original, bound, path) && |path| <= n && path[|path| - 1] == p;
      assert Walk(next, original, bound, path + [id]);
    }
    if WalksTo(next, original, bound, n, id) && !WalksTo(next, original, bound, n - 1, id) {
      var path :| Walk(next, original, bound, path) && |path| <= n + 1 && path[|path| - 1] == id;
      var front := path[..|path| - 1];
      assert |path| == n + 1 && Walk(next, original, bound, front);
      assert WalksTo(next, original, bound, n - 1, front[|front| - 1]);
    }
  }

  /** `inspect`. A missing or empty reference is the empty string; `page` answers the queries. */
  method Inspect(original: string, bound: string, page: Id -> set<Row>)
    returns (visited: set<Id>, tooMany: bool)
    ensures var reached := Within(Paged(page), Elements(RootsOf(original, bound)), DEPTH);
            && (tooMany <==> |reached| > NODE_LIMIT)
            && (!tooMany ==> visited == reached)
  {
    hide Less, Ascending, Step, Paged, Children, SortText;
    ghost var next := Paged(page);
    var roots := RootsOf(original, bound);
    ghost var rootSet := Elements(roots);
    visited := Elements(roots);
    var frontier := roots;
    tooMany := false;
    var depth := 0;
    RootsAreFew(original, bound);
    assert Expanded(next, visited, Elements(frontier)) && visited == Within(next, rootSet, 0);
    hide Expanded, RootsOf, Elements, Within;
    while depth < DEPTH
      invariant depth <= DEPTH && !tooMany
      invariant visited == Within(next, rootSet, depth) && |visited| <= NODE_LIMIT
      invariant Expanded(next, visited, Elements(frontier))
    {
      var children := Expand(frontier, page);
      ghost var before := visited;
      var fresh_ := children - visited;
      NextLevel(next, before, Elements(frontier));
      WithinNext(next, rootSet, depth);
      frontier := SortText(fresh_);
      visited := visited + fresh_;
      depth := depth + 1;
      WithinGrows(next, rootSet, depth, DEPTH);
      if |visited| > NODE_LIMIT {
        SubsetSize(visited, Within(next, rootSet, DEPTH));
        return visited, true;
      }
      if frontier == [] {
        assert Step(next, visited) <= visited;
        WithinSettles(next, rootSet, depth, DEPTH);
        return visited, false;
      }
    }
  }

  /** One round of queries over the frontier. */
  method Expand(frontier: seq<Id>, page: Id -> set<Row>) returns (children: set<Id>)
    ensures children == Step(Paged(page), Elements(frontier))
  {
    children := {};
    for i := 0 to |frontier|
      invariant children == Step(Paged(page), Elements(frontier[..i]))
    {
      children := children + Children(page(frontier[i]));
      assert Elements(frontier[..i + 1]) == Elements(frontier[..i]) + {frontier[i]};
      StepOfUnion(Paged(page), Elements(frontier[..i]), frontier[i]);
    }
    assert frontier[..|frontier|] == frontier;
  }

  /** Everything visited, except the frontier, has had its children visited. */
  ghost predicate Expanded(next: Id -> set<Id>, visited: set<Id>, frontier: set<Id>) {
    frontier <= visited && forall p | p in visited && p !in frontier :: next(p) <= visited
  }

  lemma NextLevel(next: Id -> set<Id>, visited: set<Id>, frontier: set<Id>)
    requires Expanded(next, visited, frontier)
    ensures var fresh_ := Step(next, frontier) - visited;
            && visited + fresh_ == visited + Step(next, visited)
            && Expanded(next, visited + fresh_, fresh_)
            && (fresh_ == {} ==> Step(next, visited) <= visited)
  {
  }

  lemma RootsAreFew(original: string, bound: string)
    ensures |Elements(RootsOf(original, bound))| <= 2
  {
    SubsetSize(Elements(RootsOf(original, bound)), {original, bound});
  }

  // ------------------------------------------------------------------ when a page hides a child

  /** What a search knows of a parent and its page: the children, and the parent itself. */
  function Named(parent: Id, rows: set<Row>): set<Id> {
    {parent} + Children(rows)
  }

  /** Some answer to the query leaves out a child and still names at most 256 artifacts, so that the
      node limit need not notice. */
  ghost predicate PageHides(parent: Id, rows: set<Row>) {
    exists page :: IsPage(rows, page) && Named(parent, page) != Named(parent, rows) && |Named(parent, page)| <= NODE_LIMIT
  }

  predicate DistinctChildren(rows: set<Row>) {
    forall r, s | r in rows && s in rows && r.child == s.child :: r == s
  }

  function RowsTo(rows: set<Row>, c: Id): set<Row> {
    set r | r in rows && r.child == c
  }

  lemma {:induction false} ChildrenCount(rows: set<Row>)
    ensures |Children(rows)| <= |rows|
    ensures |Children(rows)| == |rows| <==> DistinctChildren(rows)
  {
    if r :| r in rows {
      var rest := rows - {r};
      ChildrenCount(rest);
      if r.child in Children(rest) {
        assert Children(rows) == Children(rest);
      } else {
        assert Children(rows) == Children(rest) + {r.child};
      }
    }
  }

  lemma {:induction false} SubsetOfSize(s: set<Row>, must: set<Row>, k: nat) returns (t: set<Row>)
    requires must <= s && |must| <= k <= |s|
    ensures must <= t <= s && |t| == k
  {
    t := must;
    while |t| < k
      invariant must <= t <= s && |t| <= k
    {
      assert s == t + (s - t);
      var r :| r in s - t;
      t := t + {r};
    }
  }

  /** One row for each child other than the parent. */
  lemma {:induction false} Representatives(parent: Id, rows: set<Row>) returns (reps: set<Row>)
    ensures reps <= rows && DistinctChildren(reps) && parent !in Children(reps)
    ensures Children(reps) + {parent} == Named(parent, rows) && |reps| + 1 == |Named(parent, rows)|
  {
    hide Children;
    reps := {};
    ChildrenGrow({}, Row(parent, ""));
    if r :| r in rows {
      var rest := Representatives(parent, rows - {r});
      ChildrenGrow(rows - {r}, r);
      ChildrenGrow(rest, r);
      assert rows - {r} + {r} == rows;
      reps := if r.child == parent || r.child in Children(rest) then rest else rest + {r};
    } else {
      assert rows == {};
    }
    ChildrenCount(reps);
  }

  lemma ChildrenGrow(rows: set<Row>, r: Row)
    ensures Children(rows + {r}) == Children(rows) + {r.child} && Children({}) == {}
    ensures forall s | s in rows :: s.child in Children(rows)
  {
  }

  lemma TwoMembers<T>(s: set<T>) returns (x: T, y: T)
    requires |s| >= 2
    ensures x in s && y in s && x != y
  {
    x :| x in s;
    var rest := s - {x};
    assert s == rest + {x};
    y :| y in rest;
  }

  /** Rows that name fewer artifacts than they are contain four or fewer that do so. */
  lemma TwoToSpare(parent: Id, rows: set<Row>) returns (must: set<Row>)
    requires |Named(parent, rows)| < |rows|
    ensures must <= rows && |must| <= 4 && |Named(parent, must)| < |must|
  {
    hide Named, Children, DistinctChildren;
    var reps := Representatives(parent, rows);
    var spare := rows - reps;
    assert rows == reps + spare;
    var x, y := TwoMembers(spare);
    var extra := set r | r in reps && (r.child == x.child || r.child == y.child);
    SpareNames(parent, rows, reps, x, y);
    assert {x, y} !! extra;
    must := {x, y} + extra;
    assert |{x, y}| == 2;
  }

  lemma SpareNames(parent: Id, rows: set<Row>, reps: set<Row>, x: Row, y: Row)
    requires x in rows && y in rows && DistinctChildren(reps) && Children(reps) + {parent} == Named(parent, rows)
    ensures var extra := set r | r in reps && (r.child == x.child || r.child == y.child);
            |extra| <= 2 && |Named(parent, {x, y} + extra)| <= 1 + |extra|
  {
    var extra := set r | r in reps && (r.child == x.child || r.child == y.child);
    assert Children(extra) <= {x.child, y.child};
    ChildrenCount(extra);
    SubsetSize(Children(extra), {x.child, y.child});
    Represented(parent, rows, reps, x, extra);
    Represented(parent, rows, reps, y, extra);
    assert Named(parent, {x, y} + extra) <= {parent} + Children(extra);
    SubsetSize(Named(parent, {x, y} + extra), {parent} + Children(extra));
  }

  lemma Represented(parent: Id, rows: set<Row>, reps: set<Row>, z: Row, extra: set<Row>)
    requires z in rows && Children(reps) + {parent} == Named(parent, rows)
    requires forall r | r in reps && r.child == z.child :: r in extra
    ensures z.child in {parent} + Children(extra)
  {
    assert z.child in Named(parent, rows);
  }

  /** A full page can be filled from these rows that names at most 256 artifacts. */
  predicate FillsAPage(parent: Id, rows: set<Row>) {
    |rows| >= PAGE_LIMIT && |Named(parent, rows)| < |rows|
  }

  lemma HidingPage(parent: Id, rows: set<Row>, c: Id) returns (page: set<Row>)
    requires c in Children(rows) && c != parent && FillsAPage(parent, rows - RowsTo(rows, c))
    ensures IsPage(rows, page) && c !in Named(parent, page) && |Named(parent, page)| <= NODE_LIMIT
  {
    var r :| r in rows && r.child == c;
    var others := rows - RowsTo(rows, c);
    assert r !in others && forall x | x in others :: x.child != c;
    hide RowsTo;
    SubsetSize(others, rows);
    page := APageFrom(parent, others);
    if |rows| <= PAGE_LIMIT { AllOrFewer(others, rows); }
  }

  lemma APageFrom(parent: Id, rows: set<Row>) returns (page: set<Row>)
    requires FillsAPage(parent, rows)
    ensures page <= rows && |page| == PAGE_LIMIT && |Named(parent, page)| <= NODE_LIMIT
  {
    hide Children, Named;
    var must := TwoToSpare(parent, rows);
    page := SubsetOfSize(rows, must, PAGE_LIMIT);
    var rest := page - must;
    assert page == must + rest && must !! rest;
    NamedGrows(parent, must, rest);
    ChildrenCount(rest);
  }

  lemma AllOrFewer(some: set<Row>, all: set<Row>)
    requires some <= all && |all| <= |some|
    ensures some == all
  {
    assert all == some + (all - some);
  }

  /** Exactly when a query can hide a child: some child's rows can all be left out, at least 257 rows
      are left, and these name, with the parent, fewer artifacts than they are. */
  lemma PageHidesExactly(parent: Id, rows: set<Row>)
    ensures PageHides(parent, rows) <==>
            exists c :: c in Children(rows) && c != parent && FillsAPage(parent, rows - RowsTo(rows, c))
  {
    if PageHides(parent, rows) {
      var page :| IsPage(rows, page) && Named(parent, page) != Named(parent, rows) && |Named(parent, page)| <= NODE_LIMIT;
      HidingNeeds(parent, rows, page);
    }
    if c :| c in Children(rows) && c != parent && FillsAPage(parent, rows - RowsTo(rows, c)) {
      var page := HidingPage(parent, rows, c);
      assert c in Named(parent, rows);
    }
  }

  lemma HidingNeeds(parent: Id, rows: set<Row>, page: set<Row>)
    requires IsPage(rows, page) && Named(parent, page) != Named(parent, rows) && |Named(parent, page)| <= NODE_LIMIT
    ensures exists c :: c in Children(rows) && c != parent && FillsAPage(parent, rows - RowsTo(rows, c))
  {
    if |rows| <= PAGE_LIMIT { AllOrFewer(page, rows); }
    var c :| c in Children(rows) && c !in Named(parent, page) by { assert Children(page) <= Children(rows); }
    var others := rows - RowsTo(rows, c);
    assert page <= others;
    RestNames(parent, others, page);
  }

  lemma RestNames(parent: Id, others: set<Row>, page: set<Row>)
    requires page <= others && |page| == PAGE_LIMIT && |Named(parent, page)| <= NODE_LIMIT
    ensures FillsAPage(parent, others)
  {
    hide Children, Named;
    var rest := others - page;
    assert others == page + rest && page !! rest;
    NamedGrows(parent, page, rest);
    ChildrenCount(rest);
  }

  lemma NamedGrows(parent: Id, some: set<Row>, more: set<Row>)
    ensures |Named(parent, some + more)| <= |Named(parent, some)| + |Children(more)|
  {
    assert Named(parent, some + more) == Named(parent, some) + Children(more);
  }

  /** No query hides a child whose parent the search may ask for. */
  ghost predicate NoPageHides(edges: Edges, roots: set<Id>) {
    forall parent | parent in Within(Full(edges), roots, DEPTH - 1) :: !PageHides(parent, Rows(edges, parent))
  }

  /** Where each pair of artifacts has one relation, no page hides a child. */
  lemma OneRelationHidesNothing(edges: Edges, roots: set<Id>)
    requires forall parent | parent in edges :: DistinctChildren(edges[parent])
    ensures NoPageHides(edges, roots)
  {
    forall parent ensures !PageHides(parent, Rows(edges, parent)) {
      var rows := Rows(edges, parent);
      PageHidesExactly(parent, rows);
      forall c ensures !FillsAPage(parent, rows - RowsTo(rows, c)) {
        var others := rows - RowsTo(rows, c);
        ChildrenCount(others);
        SubsetSize(Children(others), Named(parent, others));
      }
    }
  }

  // ------------------------------------------------------------------ the promise

  /** A search over pages agrees with the graph: it gives up exactly when more than 256 artifacts lie
      within eight edges, and otherwise has found all of them. */
  ghost predicate SearchIsExact(edges: Edges, page: Id -> set<Row>, roots: set<Id>) {
    var seen, all := Within(Paged(page), roots, DEPTH), Within(Full(edges), roots, DEPTH);
    && (|seen| > NODE_LIMIT <==> |all| > NODE_LIMIT)
    && (|seen| <= NODE_LIMIT ==> seen == all)
  }

  lemma {:induction false} PagedWithin(edges: Edges, page: Id -> set<Row>, roots: set<Id>, n: nat)
    requires Answers(edges, page) && NoPageHides(edges, roots) && n <= DEPTH
    ensures var seen, all := Within(Paged(page), roots, n), Within(Full(edges), roots, n);
            seen <= all && (seen == all || |seen| > NODE_LIMIT)
  {
    hide Step, Paged, Full, PageHides;
    var narrow, wide := Paged(page), Full(edges);
    if n > 0 {
      PagedWithin(edges, page, roots, n - 1);
      WithinGrows(wide, roots, n - 1, DEPTH - 1);
      forall p | p in Within(narrow, roots, n - 1) ensures Fine(narrow, wide, p) {
        PageIsFine(edges, page, p);
      }
      LevelOfPages(narrow, wide, Within(narrow, roots, n - 1), Within(wide, roots, n - 1));
    }
  }

  /** A node whose page shows all its children, or is alone too large. */
  ghost predicate Fine(narrow: Id -> set<Id>, wide: Id -> set<Id>, p: Id) {
    narrow(p) <= wide(p) && ({p} + narrow(p) == {p} + wide(p) || |{p} + narrow(p)| > NODE_LIMIT)
  }

  lemma LevelOfPages(narrow: Id -> set<Id>, wide: Id -> set<Id>, seen: set<Id>, all: set<Id>)
    requires forall p | p in seen :: Fine(narrow, wide, p)
    requires seen <= all && (seen == all || |seen| > NODE_LIMIT)
    ensures var more := seen + Step(narrow, seen);
            more <= all + Step(wide, all) && (more == all + Step(wide, all) || |more| > NODE_LIMIT)
  {
    StepMonotone(narrow, wide, seen, all);
    var more := seen + Step(narrow, seen);
    if |seen| > NODE_LIMIT {
      SubsetSize(seen, more);
    } else if p :| p in seen && {p} + narrow(p) != {p} + wide(p) {
      SubsetSize({p} + narrow(p), more);
    } else {
      forall p, c | p in seen && c in wide(p) ensures c in more { assert c in {p} + narrow(p); }
    }
  }

  lemma PageIsFine(edges: Edges, page: Id -> set<Row>, p: Id)
    requires Answers(edges, page) && !PageHides(p, Rows(edges, p))
    ensures Fine(Paged(page), Full(edges), p)
  {
    assert IsPage(Rows(edges, p), page(p));
    assert Named(p, page(p)) == {p} + Paged(page)(p) && Named(p, Rows(edges, p)) == {p} + Full(edges)(p);
  }

  /** Where no page hides a child, a search over pages is exact. */
  lemma RowLimitHidesNothing(edges: Edges, page: Id -> set<Row>, roots: set<Id>)
    requires Answers(edges, page) && NoPageHides(edges, roots)
    ensures SearchIsExact(edges, page, roots)
  {
    hide Within;
    PagedWithin(edges, page, roots, DEPTH);
    SubsetSize(Within(Paged(page), roots, DEPTH), Within(Full(edges), roots, DEPTH));
  }

  /** For a single parent the condition on its query is also needed: its search is exact under every
      answer of the database exactly when no page hides a child. */
  lemma OneParentExactly(edges: Edges, p: Id)
    requires edges.Keys == {p}
    ensures (forall page | Answers(edges, page) :: SearchIsExact(edges, page, {p})) <==> !PageHides(p, edges[p])
  {
    if PageHides(p, edges[p]) {
      PageHidesExactly(p, edges[p]);
      var c :| c in Children(edges[p]) && c != p && FillsAPage(p, edges[p] - RowsTo(edges[p], c));
      var page := LosesAChild(edges, p, c);
    } else {
      forall q ensures !PageHides(q, Rows(edges, q)) {
        if q != p { PageHidesExactly(q, {}); }
      }
      forall page | Answers(edges, page) ensures SearchIsExact(edges, page, {p}) {
        RowLimitHidesNothing(edges, page, {p});
      }
    }
  }

  /** The search returns without complaint and without a child. */
  lemma LosesAChild(edges: Edges, p: Id, c: Id) returns (page: Id -> set<Row>)
    requires edges.Keys == {p} && c in Children(edges[p]) && c != p
    requires FillsAPage(p, edges[p] - RowsTo(edges[p], c))
    ensures Answers(edges, page) && !SearchIsExact(edges, page, {p})
    ensures var seen := Within(Paged(page), {p}, DEPTH);
            |seen| <= NODE_LIMIT && c !in seen && c in Within(Full(edges), {p}, DEPTH)
  {
    hide Within, FillsAPage;
    var chosen := HidingPage(p, edges[p], c);
    page := q => if q == p then chosen else {};
    assert Children({}) == {};
    assert Answers(edges, page);
    SearchStopsAt(Paged(page), p, Children(chosen));
    BothFound(Full(edges), p, c);
  }

  lemma SearchStopsAt(next: Id -> set<Id>, p: Id, children: set<Id>)
    requires next(p) == children && forall q | q != p :: next(q) == {}
    ensures Within(next, {p}, DEPTH) == {p} + children
  {
    assert Within(next, {p}, 0) == {p};
    assert Step(next, {p}) == children;
    assert Within(next, {p}, 1) == {p} + children;
    assert Step(next, {p} + children) <= children;
    WithinSettles(next, {p}, 1, DEPTH);
  }

  lemma BothFound(next: Id -> set<Id>, p: Id, b: Id)
    requires b in next(p)
    ensures b in Within(next, {p}, DEPTH)
  {
    assert Within(next, {p}, 0) == {p};
    assert b in Within(next, {p}, 1);
    WithinGrows(next, {p}, 1, DEPTH);
  }

  // ------------------------------------------------------------------ which stores keep the promise

  ghost predicate UsesOnly(edges: Edges, kinds: set<string>) {
    forall p, r | p in edges && r in edges[p] :: r.relation in kinds
  }

  /** Every search over every store with these kinds of relation is exact, whatever the database answers. */
  ghost predicate PromiseHolds(kinds: set<string>) {
    forall edges: Edges, page: Id -> set<Row>, original: string, bound: string
      | UsesOnly(edges, kinds) && Answers(edges, page) :: SearchIsExact(edges, page, Elements(RootsOf(original, bound)))
  }

  /** Exactly which relation kinds keep the promise: at most one. */
  lemma PromiseHoldsExactly(kinds: set<string>)
    ensures PromiseHolds(kinds) <==> |kinds| <= 1
  {
    hide SearchIsExact, Answers, RootsOf, Elements, UsesOnly;
    if |kinds| <= 1 {
      forall edges: Edges, page: Id -> set<Row>, original: string, bound: string | UsesOnly(edges, kinds) && Answers(edges, page)
        ensures SearchIsExact(edges, page, Elements(RootsOf(original, bound)))
      {
        OneKindIsExact(kinds, edges, page, Elements(RootsOf(original, bound)));
      }
    } else {
      var r, s := TwoMembers(kinds);
      var edges, page, lost := RepeatedRelationsHideAChild(r, s);
      UsesMore(edges, {r, s}, kinds);
      OneRoot("p");
    }
  }

  lemma OneRoot(p: Id)
    requires p != ""
    ensures Elements(RootsOf(p, "")) == {p}
  {
  }

  lemma UsesMore(edges: Edges, some: set<string>, all: set<string>)
    requires UsesOnly(edges, some) && some <= all
    ensures UsesOnly(edges, all)
  {
  }

  lemma OneKindIsExact(kinds: set<string>, edges: Edges, page: Id -> set<Row>, roots: set<Id>)
    requires |kinds| <= 1 && UsesOnly(edges, kinds) && Answers(edges, page)
    ensures SearchIsExact(edges, page, roots)
  {
    hide SearchIsExact, Answers, UsesOnly, NoPageHides;
    OneKindDistinct(edges, kinds);
    OneRelationHidesNothing(edges, roots);
    RowLimitHidesNothing(edges, page, roots);
  }

  lemma OneKindDistinct(edges: Edges, kinds: set<string>)
    requires UsesOnly(edges, kinds) && |kinds| <= 1
    ensures forall parent | parent in edges :: DistinctChildren(edges[parent])
  {
    forall a, b | a in kinds && b in kinds ensures a == b {
      if a != b { SubsetSize({a, b}, kinds); }
    }
  }

  /** The name of the n-th child. */
  function Nth(n: nat): Id {
    seq(n, _ => 'c')
  }

  /** Rows to n children, two relations each. */
  function Doubled(n: nat, r: string, s: string): set<Row> {
    if n == 0 then {} else Doubled(n - 1, r, s) + {Row(Nth(n - 1), r), Row(Nth(n - 1), s)}
  }

  lemma {:induction false} DoubledCounts(n: nat, r: string, s: string)
    requires r != s
    ensures |Doubled(n, r, s)| == 2 * n && |Children(Doubled(n, r, s))| == n
    ensures forall c | c in Children(Doubled(n, r, s)) :: |c| < n
    ensures forall row | row in Doubled(n, r, s) :: row.relation in {r, s}
  {
    if n > 0 {
      DoubledCounts(n - 1, r, s);
      NthLength(n - 1);
      hide Children, Nth;
      OneMoreChild(Doubled(n - 1, r, s), Nth(n - 1), r, s);
    }
  }

  lemma OneMoreChild(rest: set<Row>, c: Id, r: string, s: string)
    requires r != s && forall x | x in Children(rest) :: |x| < |c|
    ensures var more := rest + {Row(c, r), Row(c, s)};
            && |more| == |rest| + 2 && |Children(more)| == |Children(rest)| + 1
            && forall x | x in Children(more) :: |x| <= |c|
  {
    hide Children;
    ChildrenGrow(rest, Row(c, r));
    ChildrenGrow(rest + {Row(c, r)}, Row(c, s));
    assert Row(c, r) !in rest && Row(c, s) !in rest;
    assert rest + {Row(c, r)} + {Row(c, s)} == rest + {Row(c, r), Row(c, s)};
    assert Children(rest) + {c} + {c} == Children(rest) + {c};
  }

  lemma NthLength(n: nat)
    ensures |Nth(n)| == n
  {
  }

  const STAR := 130

  /** Two kinds are enough for the promise to fail: a parent with 130 children, two relations to each. */
  lemma RepeatedRelationsHideAChild(r: string, s: string) returns (edges: Edges, page: Id -> set<Row>, c: Id)
    requires r != s
    ensures UsesOnly(edges, {r, s}) && Answers(edges, page) && !SearchIsExact(edges, page, {"p"})
    ensures var seen := Within(Paged(page), {"p"}, DEPTH);
            |seen| <= NODE_LIMIT && c !in seen && c in Within(Full(edges), {"p"}, DEPTH)
  {
    hide Doubled, Within, SearchIsExact, Answers, FillsAPage, Nth;
    LastChild(r, s);
    var rows := Doubled(STAR, r, s);
    edges := map["p" := rows];
    c := Nth(STAR - 1);
    page := LosesAChild(edges, "p", c);
  }

  lemma LastChild(r: string, s: string)
    requires r != s
    ensures var rows, c := Doubled(STAR, r, s), Nth(STAR - 1);
            && c in Children(rows) && c != "p" && FillsAPage("p", rows - RowsTo(rows, c))
            && forall row | row in rows :: row.relation in {r, s}
  {
    var rows, c := Doubled(STAR, r, s), Nth(STAR - 1);
    DoubledCounts(STAR, r, s);
    DoubledCounts(STAR - 1, r, s);
    var others := Doubled(STAR - 1, r, s);
    hide Doubled;
    assert rows == others + {Row(c, r), Row(c, s)} by { DoubledStep(STAR, r, s); }
    assert rows - RowsTo(rows, c) == others;
    assert c in Children(rows) by { assert Row(c, r) in rows; }
    assert |c| != |"p"|;
    assert |Named("p", others)| <= 1 + |Children(others)|;
  }

  lemma DoubledStep(n: nat, r: string, s: string)
    requires n > 0
    ensures Doubled(n, r, s) == Doubled(n - 1, r, s) + {Row(Nth(n - 1), r), Row(Nth(n - 1), s)}
  {
  }
}
