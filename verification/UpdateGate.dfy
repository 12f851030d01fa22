/** scripts/verify_competition_lineage_update.py: the gate that compares the lineage evidence of two
    commits and admits the difference under a policy profile. */
module UpdateGate {
  import opened Sorting
  import opened TextOrder
  import opened PyText
  import opened Json
  import opened LineageGraph

  const SPECIAL_HASH_FIELDS := {"registryRootHash", "productBoundaryHash", "externalInterfaceRegistryHash", "interfaceGovernanceHash"}

  datatype Evidence = Evidence(graph: Dict, verification: Dict, registry: Dict)

  /** A Python dict from node id to node: the entries, and the ids in insertion order. */
  datatype NodeTable = NodeTable(order: seq<string>, entries: map<string, Dict>)

  // ------------------------------------------------------------------ reading the evidence

  function AddNode(t: NodeTable, raw: Json): NodeTable {
    if !raw.Obj? then t else
      var id := Strip(TextOrEmpty(Get(raw.fields, "id")));
      if id == "" then t
      else NodeTable(if id in t.entries then t.order else t.order + [id], t.entries[id := raw.fields])
  }

  function NodesOf(items: seq<Json>): NodeTable {
    if items == [] then NodeTable([], map[]) else AddNode(NodesOf(items[..|items| - 1]), items[|items| - 1])
  }

  method NodeMap(graph: Dict) returns (t: NodeTable)
    ensures t == NodesOf(ItemsOrEmpty(Get(graph, "nodes")))
  {
    var items := ItemsOrEmpty(Get(graph, "nodes"));
    t := NodeTable([], map[]);
    for i := 0 to |items|
      invariant t == NodesOf(items[..i])
    {
      assert items[..i + 1][..i] == items[..i];
      t := AddNode(t, items[i]);
    }
    assert items[..|items|] == items;
  }

  function AddEdge(edges: set<Edge>, raw: Json): set<Edge> {
    if !raw.Obj? then edges else
      var e := Edge(Strip(TextOrEmpty(Get(raw.fields, "from"))),
                    Strip(TextOrEmpty(Get(raw.fields, "to"))),
                    Strip(TextOrEmpty(Get(raw.fields, "type"))));
      if e.source != "" && e.target != "" && e.kind != "" then edges + {e} else edges
  }

  function EdgesOf(items: seq<Json>): set<Edge> {
    if items == [] then {} else AddEdge(EdgesOf(items[..|items| - 1]), items[|items| - 1])
  }

  method EdgeSet(graph: Dict) returns (edges: set<Edge>)
    ensures edges == EdgesOf(ItemsOrEmpty(Get(graph, "edges")))
  {
    var items := ItemsOrEmpty(Get(graph, "edges"));
    edges := {};
    for i := 0 to |items|
      invariant edges == EdgesOf(items[..i])
    {
      assert items[..i + 1][..i] == items[..i];
      edges := AddEdge(edges, items[i]);
    }
    assert items[..|items|] == items;
  }

  function PathOf(node: Dict): string {
    Strip(TextOrEmpty(Get(node, "path")))
  }

  function AddFile(files: map<string, Dict>, node: Dict): map<string, Dict> {
    if Get(node, "type") == Str("file") && PathOf(node) != "" then files[PathOf(node) := node] else files
  }

  function FilesOf(order: seq<string>, entries: map<string, Dict>): map<string, Dict>
    requires forall id | id in order :: id in entries
  {
    if order == [] then map[]
    else AddFile(FilesOf(order[..|order| - 1], entries), entries[order[|order| - 1]])
  }

  lemma {:induction false} NodesWellFormed(items: seq<Json>)
    ensures Elements(NodesOf(items).order) == NodesOf(items).entries.Keys
  {
    if items != [] {
      NodesWellFormed(items[..|items| - 1]);
      var t, u := NodesOf(items[..|items| - 1]), NodesOf(items);
      if u != t && |u.order| == |t.order| + 1 {
        assert Elements(u.order) == Elements(t.order) + {u.order[|t.order|]};
      }
    }
  }

  method FileNodes(t: NodeTable) returns (files: map<string, Dict>)
    requires forall id | id in t.order :: id in t.entries
    ensures files == FilesOf(t.order, t.entries)
  {
    files := map[];
    for i := 0 to |t.order|
      invariant files == FilesOf(t.order[..i], t.entries)
    {
      assert t.order[..i + 1][..i] == t.order[..i];
      files := AddFile(files, t.entries[t.order[i]]);
    }
    assert t.order[..|t.order|] == t.order;
  }

  function Nodes(e: Evidence): map<string, Dict> {
    NodesOf(ItemsOrEmpty(Get(e.graph, "nodes"))).entries
  }

  function Files(e: Evidence): map<string, Dict> {
    var t := NodesOf(ItemsOrEmpty(Get(e.graph, "nodes")));
    NodesWellFormed(ItemsOrEmpty(Get(e.graph, "nodes")));
    assert forall id | id in t.order :: id in Elements(t.order);
    FilesOf(t.order, t.entries)
  }

  function Edges(e: Evidence): set<Edge> {
    EdgesOf(ItemsOrEmpty(Get(e.graph, "edges")))
  }

  function Modules(e: Evidence): Dict {
    var raw := Get(e.registry, "modules");
    if raw.Obj? then raw.fields else map[]
  }

  function Normalized(node: Dict): Dict {
    node - {"sourceCommit"}
  }

  // ------------------------------------------------------------------ the policy profile

  datatype Profile = Profile(
    requireBaselineVerified: bool, requireTargetVerified: bool,
    requireRuntimeHashStable: bool, requireGraphHashStable: bool,
    allowRuntimeMembershipChange: bool, allowRegistryModuleChanges: bool, allowEdgeChanges: bool,
    pathPrefixes: seq<string>, registryModules: set<string>, nodePrefixes: seq<string>, specialHashes: set<string>)

  function TextList(items: seq<Json>): seq<string> {
    if items == [] then [] else
      TextList(items[..|items| - 1]) +
      (if Strip(Text(items[|items| - 1])) != "" then [Text(items[|items| - 1])] else [])
  }

  function Flag(d: Dict, key: string, default: bool): bool {
    if key in d then Truthy(d[key]) else default
  }

  function ProfileOf(d: Dict): Profile {
    Profile(
      Flag(d, "requireBaselineVerified", true), Flag(d, "requireTargetVerified", true),
      Flag(d, "requireRuntimeHashStable", false), Flag(d, "requireGraphHashStable", false),
      Flag(d, "allowRuntimeMembershipChange", false), Flag(d, "allowRegistryModuleChanges", false),
      Flag(d, "allowEdgeChanges", false),
      TextList(ItemsOrEmpty(Get(d, "allowedRuntimePathPrefixes"))),
      Elements(TextList(ItemsOrEmpty(Get(d, "allowedRegistryModules")))),
      TextList(ItemsOrEmpty(Get(d, "allowedNodePrefixes"))),
      Elements(TextList(ItemsOrEmpty(Get(d, "allowedSpecialHashChanges")))))
  }

  predicate PrefixAllowed(value: string, prefixes: seq<string>) {
    exists prefix | prefix in prefixes ::
      if EndsWith(prefix, "/") then prefix <= value else value == prefix || prefix <= value
  }

  function Owners(node: Dict): set<string> {
    set item | item in ItemsOrEmpty(Get(node, "registryModules")) :: Text(item)
  }

  predicate FileChangeAllowed(path: string, node: Dict, p: Profile) {
    PrefixAllowed(path, p.pathPrefixes) || Owners(node) * p.registryModules != {}
  }

  /** `str(node.get(key) or node_id.removeprefix(prefix))`. */
  function NamedBy(node: Dict, key: string, id: string, prefix: string): string
    requires prefix <= id
  {
    if Truthy(Get(node, key)) then Text(Get(node, key)) else id[|prefix|..]
  }

  predicate NodeChangeAllowed(id: string, node: Dict, p: Profile) {
    || PrefixAllowed(id, p.nodePrefixes)
    || ("file:" <= id && FileChangeAllowed(NamedBy(node, "path", id, "file:"), node, p))
    || (!("file:" <= id) && "registry:" <= id && NamedBy(node, "moduleId", id, "registry:") in p.registryModules)
  }

  // ------------------------------------------------------------------ differences

  predicate Differ(a: map<string, Dict>, b: map<string, Dict>, key: string) {
    if key in a && key in b then Normalized(a[key]) != Normalized(b[key]) else key in a || key in b
  }

  function Differing(a: map<string, Dict>, b: map<string, Dict>): set<string> {
    set key | key in a.Keys + b.Keys && Differ(a, b, key)
  }

  /** `target.get(key) or base.get(key) or {}`. */
  function Latest(base: map<string, Dict>, target: map<string, Dict>, key: string): Dict {
    if key in target && target[key] != map[] then target[key]
    else if key in base && base[key] != map[] then base[key]
    else map[]
  }

  function ChangedModules(b: Evidence, t: Evidence): set<string> {
    set m | m in Modules(b).Keys + Modules(t).Keys && Get(Modules(b), m) != Get(Modules(t), m)
  }

  function ChangedSpecials(b: Evidence, t: Evidence): set<string> {
    set f | f in SPECIAL_HASH_FIELDS && Get(b.verification, f) != Get(t.verification, f)
  }

  function ChangedEdges(b: Evidence, t: Evidence): set<Edge> {
    (Edges(t) - Edges(b)) + (Edges(b) - Edges(t))
  }

  /** Node ids that stand for a file path of either side; the node loop skips them. */
  function RuntimeNodeIds(b: Evidence, t: Evidence): set<string> {
    FileIds(Files(b).Keys + Files(t).Keys)
  }

  function FileIds(paths: set<string>): set<string> {
    set path | path in paths :: "file:" + path
  }

  predicate Verified(e: Evidence) {
    Get(e.verification, "verified") == Bool(true)
  }

  // ------------------------------------------------------------------ what the gate admits

  ghost predicate FilesAdmitted(b: Evidence, t: Evidence, p: Profile) {
    && (p.allowRuntimeMembershipChange || Files(b).Keys == Files(t).Keys)
    && forall path | path in Differing(Files(b), Files(t)) :: FileChangeAllowed(path, Latest(Files(b), Files(t), path), p)
  }

  ghost predicate NodesAdmitted(b: Evidence, t: Evidence, p: Profile) {
    forall id | id in Differing(Nodes(b), Nodes(t)) && id !in RuntimeNodeIds(b, t) ::
      NodeChangeAllowed(id, Latest(Nodes(b), Nodes(t), id), p)
  }

  ghost predicate EndpointAllowed(b: Evidence, t: Evidence, p: Profile, id: string) {
    NodeChangeAllowed(id, Latest(Nodes(b), Nodes(t), id), p)
  }

  ghost predicate EdgesAdmitted(b: Evidence, t: Evidence, p: Profile) {
    forall e | e in ChangedEdges(b, t) ::
      p.allowEdgeChanges && (EndpointAllowed(b, t, p, e.source) || EndpointAllowed(b, t, p, e.target))
  }

  ghost predicate HashesAdmitted(b: Evidence, t: Evidence, p: Profile) {
    && (p.requireBaselineVerified ==> Verified(b))
    && (p.requireTargetVerified ==> Verified(t))
    && (p.requireRuntimeHashStable ==> Get(b.verification, "runtimeHash") == Get(t.verification, "runtimeHash"))
    && (p.requireGraphHashStable ==> Get(b.verification, "graphHash") == Get(t.verification, "graphHash"))
    && ChangedSpecials(b, t) <= p.specialHashes
    && (ChangedModules(b, t) != {} ==> p.allowRegistryModuleChanges && ChangedModules(b, t) <= p.registryModules)
  }

  ghost predicate Admitted(b: Evidence, t: Evidence, p: Profile) {
    HashesAdmitted(b, t, p) && FilesAdmitted(b, t, p) && EdgesAdmitted(b, t, p) && NodesAdmitted(b, t, p)
  }

  // ------------------------------------------------------------------ the comparison

  datatype Finding =
    | BaselineNotVerified | TargetNotVerified | RuntimeHashChanged | GraphHashChanged
    | FileAdded(path: string) | FileRemoved(path: string) | UnallowedFile(path: string)
    | ModuleOutsideProfile(name: string) | UnallowedModule(name: string)
    | EdgeOutsideProfile(added: bool, edge: Edge) | UnallowedEdge(added: bool, edge: Edge)
    | UnallowedSpecialHash(field: string)
    | UnallowedNode(id: string)

  /** Which findings a comparison has to report. */
  ghost predicate Finds(b: Evidence, t: Evidence, p: Profile, f: Finding) {
    match f
    case BaselineNotVerified => p.requireBaselineVerified && !Verified(b)
    case TargetNotVerified => p.requireTargetVerified && !Verified(t)
    case RuntimeHashChanged => p.requireRuntimeHashStable && Get(b.verification, "runtimeHash") != Get(t.verification, "runtimeHash")
    case GraphHashChanged => p.requireGraphHashStable && Get(b.verification, "graphHash") != Get(t.verification, "graphHash")
    case FileAdded(path) => !p.allowRuntimeMembershipChange && path in Files(t).Keys - Files(b).Keys
    case FileRemoved(path) => !p.allowRuntimeMembershipChange && path in Files(b).Keys - Files(t).Keys
    case UnallowedFile(path) => path in Differing(Files(b), Files(t)) && !FileChangeAllowed(path, Latest(Files(b), Files(t), path), p)
    case ModuleOutsideProfile(m) => !p.allowRegistryModuleChanges && m in ChangedModules(b, t)
    case UnallowedModule(m) => p.allowRegistryModuleChanges && m in ChangedModules(b, t) && m !in p.registryModules
    case EdgeOutsideProfile(added, e) => !p.allowEdgeChanges && e in (if added then Edges(t) - Edges(b) else Edges(b) - Edges(t))
    case UnallowedEdge(added, e) =>
      p.allowEdgeChanges && e in (if added then Edges(t) - Edges(b) else Edges(b) - Edges(t)) &&
      !EndpointAllowed(b, t, p, e.source) && !EndpointAllowed(b, t, p, e.target)
    case UnallowedSpecialHash(field) => field in ChangedSpecials(b, t) && field !in p.specialHashes
    case UnallowedNode(id) =>
      id in Differing(Nodes(b), Nodes(t)) && id !in RuntimeNodeIds(b, t) &&
      !NodeChangeAllowed(id, Latest(Nodes(b), Nodes(t), id), p)
  }

  /** The gate admits exactly the updates without a finding. */
  lemma AdmittedIffNothingFound(b: Evidence, t: Evidence, p: Profile)
    ensures Admitted(b, t, p) <==> forall f :: !Finds(b, t, p, f)
  {
    if Admitted(b, t, p) {
      forall f ensures !Finds(b, t, p, f) { AdmittedHasNoFinding(b, t, p, f); }
    } else {
      var f := SomeFinding(b, t, p);
    }
  }

  lemma AdmittedHasNoFinding(b: Evidence, t: Evidence, p: Profile, f: Finding)
    requires Admitted(b, t, p)
    ensures !Finds(b, t, p, f)
  {
    hide NodeChangeAllowed, FileChangeAllowed, Files, Nodes, Edges, Latest, Differing;
    match f
    case UnallowedFile(path) =>
    case UnallowedNode(id) =>
    case EdgeOutsideProfile(added, e) => assert e in ChangedEdges(b, t) || !Finds(b, t, p, f);
    case UnallowedEdge(added, e) => assert e in ChangedEdges(b, t) || !Finds(b, t, p, f);
    case _ =>
  }

  lemma SomeFinding(b: Evidence, t: Evidence, p: Profile) returns (f: Finding)
    requires !Admitted(b, t, p)
    ensures Finds(b, t, p, f)
  {
    hide Finds, FilesAdmitted, HashesAdmitted, EdgesAdmitted;
    if !HashesAdmitted(b, t, p) {
      f := SomeHashFinding(b, t, p);
    } else if !FilesAdmitted(b, t, p) {
      f := SomeFileFinding(b, t, p);
    } else if !EdgesAdmitted(b, t, p) {
      f := SomeEdgeFinding(b, t, p);
    } else {
      f := SomeNodeFinding(b, t, p);
    }
  }

  lemma SomeHashFinding(b: Evidence, t: Evidence, p: Profile) returns (f: Finding)
    requires !HashesAdmitted(b, t, p)
    ensures Finds(b, t, p, f)
  {
    hide Modules, ChangedModules, ChangedSpecials;
    if p.requireBaselineVerified && !Verified(b) { return BaselineNotVerified; }
    if p.requireTargetVerified && !Verified(t) { return TargetNotVerified; }
    if !(ChangedSpecials(b, t) <= p.specialHashes) {
      var x :| x in ChangedSpecials(b, t) && x !in p.specialHashes;
      return UnallowedSpecialHash(x);
    }
    if x :| x in ChangedModules(b, t) && !p.allowRegistryModuleChanges { return ModuleOutsideProfile(x); }
    if !(ChangedModules(b, t) <= p.registryModules) {
      var x :| x in ChangedModules(b, t) && x !in p.registryModules;
      return UnallowedModule(x);
    }
    return if Finds(b, t, p, RuntimeHashChanged) then RuntimeHashChanged else GraphHashChanged;
  }

  lemma SomeFileFinding(b: Evidence, t: Evidence, p: Profile) returns (f: Finding)
    requires !FilesAdmitted(b, t, p)
    ensures Finds(b, t, p, f)
  {
    hide Files, FileChangeAllowed, Latest, Differing;
    if !p.allowRuntimeMembershipChange && Files(b).Keys != Files(t).Keys {
      var x :| x in Files(b).Keys + Files(t).Keys && !(x in Files(b).Keys && x in Files(t).Keys);
      return if x in Files(t) then FileAdded(x) else FileRemoved(x);
    }
    var x :| x in Differing(Files(b), Files(t)) && !FileChangeAllowed(x, Latest(Files(b), Files(t), x), p);
    return UnallowedFile(x);
  }

  lemma SomeEdgeFinding(b: Evidence, t: Evidence, p: Profile) returns (f: Finding)
    requires !EdgesAdmitted(b, t, p)
    ensures Finds(b, t, p, f)
  {
    hide Edges, EndpointAllowed;
    var e :| e in ChangedEdges(b, t) &&
      !(p.allowEdgeChanges && (EndpointAllowed(b, t, p, e.source) || EndpointAllowed(b, t, p, e.target)));
    return if p.allowEdgeChanges then UnallowedEdge(e in Edges(t), e) else EdgeOutsideProfile(e in Edges(t), e);
  }

  lemma SomeNodeFinding(b: Evidence, t: Evidence, p: Profile) returns (f: Finding)
    requires !NodesAdmitted(b, t, p)
    ensures Finds(b, t, p, f)
  {
    hide Nodes, NodeChangeAllowed, Latest, Differing, RuntimeNodeIds;
    var id :| id in Differing(Nodes(b), Nodes(t)) && id !in RuntimeNodeIds(b, t) &&
      !NodeChangeAllowed(id, Latest(Nodes(b), Nodes(t), id), p);
    return UnallowedNode(id);
  }

  datatype Report = Report(
    addedFiles: seq<string>, removedFiles: seq<string>, changedFiles: seq<string>,
    addedNodes: seq<string>, removedNodes: seq<string>, changedNodes: seq<string>,
    addedEdges: seq<Edge>, removedEdges: seq<Edge>,
    changedModules: seq<string>, changedSpecials: set<string>,
    runtimeHashChanged: bool, graphHashChanged: bool,
    findings: seq<Finding>, verified: bool)

  /** The listing of a key set: ascending, no duplicates, nothing else. */
  ghost predicate Lists(s: seq<string>, keys: set<string>) {
    Ascending(s, Less) && Elements(s) == keys
  }

  function CommonChanged(base: map<string, Dict>, target: map<string, Dict>): set<string> {
    set k | k in base.Keys * target.Keys && Normalized(base[k]) != Normalized(target[k])
  }

  /** The listings of the keys added, removed, and changed on both sides. */
  method Diff(base: map<string, Dict>, target: map<string, Dict>)
    returns (added: seq<string>, removed: seq<string>, changed: seq<string>)
    ensures Lists(added, target.Keys - base.Keys) && Lists(removed, base.Keys - target.Keys)
    ensures Lists(changed, CommonChanged(base, target))
    ensures Elements(changed + added + removed) == Differing(base, target)
  {
    hide Less, Ascending, CommonChanged, Differing;
    added, removed := SortText(target.Keys - base.Keys), SortText(base.Keys - target.Keys);
    changed := SortText(CommonChanged(base, target));
    ElementsOfConcat(changed, added);
    ElementsOfConcat(changed + added, removed);
    DifferingSplits(base, target);
  }

  lemma DifferingSplits(base: map<string, Dict>, target: map<string, Dict>)
    ensures Differing(base, target) == CommonChanged(base, target) + (target.Keys - base.Keys) + (base.Keys - target.Keys)
  {
    hide Normalized;
  }

  lemma ElementsOfConcat<T>(a: seq<T>, b: seq<T>)
    ensures Elements(a + b) == Elements(a) + Elements(b)
  {
  }

  /** One `for x in items: if bad(x): findings.append(...)` loop. */
  method Flagged<T(==)>(items: seq<T>, bad: T -> bool, make: T -> Finding) returns (r: seq<Finding>)
    ensures forall f :: f in r <==> exists x :: x in items && bad(x) && make(x) == f
  {
    r := [];
    for i := 0 to |items|
      invariant forall f :: f in r <==> exists x :: x in items[..i] && bad(x) && make(x) == f
    {
      ghost var before := r;
      if bad(items[i]) { r := r + [make(items[i])]; }
      assert items[..i + 1] == items[..i] + [items[i]];
      forall f ensures f in r <==> exists x :: x in items[..i + 1] && bad(x) && make(x) == f {
        if f in r && f !in before { assert items[i] in items[..i + 1]; }
      }
    }
    assert items[..|items|] == items;
  }

  predicate AboutFiles(f: Finding) { f.FileAdded? || f.FileRemoved? || f.UnallowedFile? }
  predicate AboutEdges(f: Finding) { f.EdgeOutsideProfile? || f.UnallowedEdge? }

  method FileFindings(b: Evidence, t: Evidence, p: Profile, files: map<string, Dict>, files': map<string, Dict>)
    returns (r: seq<Finding>, added: seq<string>, removed: seq<string>, changed: seq<string>)
    requires files == Files(b) && files' == Files(t)
    ensures forall f :: f in r <==> AboutFiles(f) && Finds(b, t, p, f)
    ensures Lists(added, files'.Keys - files.Keys) && Lists(removed, files.Keys - files'.Keys)
    ensures Lists(changed, CommonChanged(files, files'))
  {
    hide Less, Ascending, FileChangeAllowed, Latest, Files, Differing, CommonChanged;
    added, removed, changed := Diff(files, files');
    var membership := _ => !p.allowRuntimeMembershipChange;
    var bad := path => !FileChangeAllowed(path, Latest(files, files', path), p);
    var r0 := Flagged(added, membership, path => FileAdded(path));
    var r1 := Flagged(removed, membership, path => FileRemoved(path));
    var r2 := Flagged(changed + added + removed, bad, path => UnallowedFile(path));
    r := r0 + r1 + r2;
    assert forall path :: path in changed + added + removed <==> path in Elements(changed + added + removed);
    assert forall path :: path in added <==> path in Elements(added);
    assert forall path :: path in removed <==> path in Elements(removed);
    forall f ensures f in r <==> AboutFiles(f) && Finds(b, t, p, f) {
      assert f in r <==> f in r0 || f in r1 || f in r2;
    }
  }

  method HashFindings(b: Evidence, t: Evidence, p: Profile) returns (r: seq<Finding>)
    ensures forall f :: f in r <==> Finds(b, t, p, f) && (f.BaselineNotVerified? || f.TargetNotVerified? || f.RuntimeHashChanged? || f.GraphHashChanged?)
  {
    r := [];
    if p.requireBaselineVerified && !Verified(b) { r := r + [BaselineNotVerified]; }
    if p.requireTargetVerified && !Verified(t) { r := r + [TargetNotVerified]; }
    if p.requireRuntimeHashStable && Get(b.verification, "runtimeHash") != Get(t.verification, "runtimeHash") {
      r := r + [RuntimeHashChanged];
    }
    if p.requireGraphHashStable && Get(b.verification, "graphHash") != Get(t.verification, "graphHash") {
      r := r + [GraphHashChanged];
    }
  }

  method ModuleFindings(b: Evidence, t: Evidence, p: Profile) returns (r: seq<Finding>, changed: seq<string>)
    ensures forall f :: f in r <==> (f.ModuleOutsideProfile? || f.UnallowedModule?) && Finds(b, t, p, f)
    ensures Lists(changed, ChangedModules(b, t))
  {
    hide Less, Ascending, ChangedModules;
    changed := SortText(ChangedModules(b, t));
    assert forall m :: m in changed <==> m in Elements(changed);
    if !p.allowRegistryModuleChanges {
      r := Flagged(changed, _ => true, m => ModuleOutsideProfile(m));
    } else {
      r := Flagged(changed, m => m !in p.registryModules, m => UnallowedModule(m));
    }
  }

  method SpecialFindings(b: Evidence, t: Evidence, p: Profile) returns (r: seq<Finding>)
    ensures forall f :: f in r <==> f.UnallowedSpecialHash? && Finds(b, t, p, f)
  {
    hide Less, Ascending, ChangedSpecials;
    var specials := SortText(ChangedSpecials(b, t));
    assert forall m :: m in specials <==> m in Elements(specials);
    r := Flagged(specials, f => f !in p.specialHashes, f => UnallowedSpecialHash(f));
  }

  /** The findings about the edges added, or about those removed. */
  method EdgeFindings(b: Evidence, t: Evidence, p: Profile, nodes: map<string, Dict>, nodes': map<string, Dict>,
                      added: bool, edges: seq<Edge>)
    returns (r: seq<Finding>)
    requires nodes == Nodes(b) && nodes' == Nodes(t)
    requires Elements(edges) == if added then Edges(t) - Edges(b) else Edges(b) - Edges(t)
    ensures forall f :: f in r <==> AboutEdges(f) && f.added == added && Finds(b, t, p, f)
  {
    hide NodeChangeAllowed, Latest, Edges, Nodes;
    assert forall e :: e in edges <==> e in Elements(edges);
    if !p.allowEdgeChanges {
      r := Flagged(edges, _ => true, e => EdgeOutsideProfile(added, e));
    } else {
      var bad := (e: Edge) =>
        !NodeChangeAllowed(e.source, Latest(nodes, nodes', e.source), p) &&
        !NodeChangeAllowed(e.target, Latest(nodes, nodes', e.target), p);
      r := Flagged(edges, bad, e => UnallowedEdge(added, e));
    }
  }

  method NodeFindings(b: Evidence, t: Evidence, p: Profile, nodes: map<string, Dict>, nodes': map<string, Dict>,
                      files: set<string>)
    returns (r: seq<Finding>, added: seq<string>, removed: seq<string>, changed: seq<string>)
    requires nodes == Nodes(b) && nodes' == Nodes(t) && files == Files(b).Keys + Files(t).Keys
    ensures forall f :: f in r <==> f.UnallowedNode? && Finds(b, t, p, f)
    ensures Lists(added, nodes'.Keys - nodes.Keys) && Lists(removed, nodes.Keys - nodes'.Keys)
    ensures Lists(changed, CommonChanged(nodes, nodes'))
  {
    hide Less, Ascending, NodeChangeAllowed, Latest, Nodes, Differing, CommonChanged, Files, FileIds, Lists;
    added, removed, changed := Diff(nodes, nodes');
    var runtime := FileIds(files);
    var bad := id => id !in runtime && !NodeChangeAllowed(id, Latest(nodes, nodes', id), p);
    r := Flagged(added + removed + changed, bad, id => UnallowedNode(id));
    assert forall id :: id in added + removed + changed <==> id in changed + added + removed;
    assert forall id :: id in changed + added + removed <==> id in Elements(changed + added + removed);
  }

  /** `compare`: the update is verified exactly when it is admitted, the findings are exactly the due
      ones, and the listings name exactly what changed. */
  method Compare(b: Evidence, t: Evidence, p: Profile) returns (r: Report)
    ensures r.verified <==> Admitted(b, t, p)
    ensures forall f :: f in r.findings <==> Finds(b, t, p, f)
    ensures Lists(r.addedFiles, Files(t).Keys - Files(b).Keys) && Lists(r.removedFiles, Files(b).Keys - Files(t).Keys)
    ensures Lists(r.changedFiles, CommonChanged(Files(b), Files(t)))
    ensures Lists(r.addedNodes, Nodes(t).Keys - Nodes(b).Keys) && Lists(r.removedNodes, Nodes(b).Keys - Nodes(t).Keys)
    ensures Lists(r.changedNodes, CommonChanged(Nodes(b), Nodes(t)))
    ensures Elements(r.addedEdges) == Edges(t) - Edges(b) && Elements(r.removedEdges) == Edges(b) - Edges(t)
    ensures Lists(r.changedModules, ChangedModules(b, t)) && r.changedSpecials == ChangedSpecials(b, t)
    ensures r.runtimeHashChanged <==> Get(b.verification, "runtimeHash") != Get(t.verification, "runtimeHash")
    ensures r.graphHashChanged <==> Get(b.verification, "graphHash") != Get(t.verification, "graphHash")
  {
    hide Finds, Admitted, Lists, CommonChanged, ChangedModules, Less, EdgeLess, Ascending, NodesOf, EdgesOf, FilesOf;
    NodesWellFormed(ItemsOrEmpty(Get(b.graph, "nodes")));
    NodesWellFormed(ItemsOrEmpty(Get(t.graph, "nodes")));
    var table := NodeMap(b.graph);
    var table' := NodeMap(t.graph);
    OrderIsKnown(table);
    OrderIsKnown(table');
    var files := FileNodes(table);
    var files' := FileNodes(table');
    var edges := EdgeSet(b.graph);
    var edges' := EdgeSet(t.graph);
    var r0 := HashFindings(b, t, p);
    var r1, fa, fr, fc := FileFindings(b, t, p, files, files');
    var r2, mc := ModuleFindings(b, t, p);
    var r3 := SpecialFindings(b, t, p);
    var ea, er := SortEdges(edges' - edges), SortEdges(edges - edges');
    var r5 := EdgeFindings(b, t, p, table.entries, table'.entries, true, ea);
    var r6 := EdgeFindings(b, t, p, table.entries, table'.entries, false, er);
    var r4, na, nr, nc := NodeFindings(b, t, p, table.entries, table'.entries, files.Keys + files'.Keys);
    var findings := r0 + r1 + r2 + r5 + r6 + r3 + r4;
    AllKinds(b, t, p, r0, r1, r2, r5, r6, r3, r4);
    AdmittedIffNothingFound(b, t, p);
    if findings != [] { assert findings[0] in findings; }
    r := Report(fa, fr, fc, na, nr, nc, ea, er, mc, ChangedSpecials(b, t),
                Get(b.verification, "runtimeHash") != Get(t.verification, "runtimeHash"),
                Get(b.verification, "graphHash") != Get(t.verification, "graphHash"),
                findings, findings == []);
  }

  lemma OrderIsKnown(t: NodeTable)
    requires Elements(t.order) == t.entries.Keys
    ensures forall id | id in t.order :: id in t.entries
  {
    assert forall id | id in t.order :: id in Elements(t.order);
  }

  lemma AllKinds(b: Evidence, t: Evidence, p: Profile, r0: seq<Finding>, r1: seq<Finding>, r2: seq<Finding>,
                 r3: seq<Finding>, r4: seq<Finding>, r5: seq<Finding>, r6: seq<Finding>)
    requires forall f :: f in r0 <==> Finds(b, t, p, f) && (f.BaselineNotVerified? || f.TargetNotVerified? || f.RuntimeHashChanged? || f.GraphHashChanged?)
    requires forall f :: f in r1 <==> AboutFiles(f) && Finds(b, t, p, f)
    requires forall f :: f in r2 <==> (f.ModuleOutsideProfile? || f.UnallowedModule?) && Finds(b, t, p, f)
    requires forall f :: f in r3 <==> AboutEdges(f) && f.added == true && Finds(b, t, p, f)
    requires forall f :: f in r4 <==> AboutEdges(f) && f.added == false && Finds(b, t, p, f)
    requires forall f :: f in r5 <==> f.UnallowedSpecialHash? && Finds(b, t, p, f)
    requires forall f :: f in r6 <==> f.UnallowedNode? && Finds(b, t, p, f)
    ensures forall f :: f in r0 + r1 + r2 + r3 + r4 + r5 + r6 <==> Finds(b, t, p, f)
  {
    hide Finds;
    forall f ensures f in r0 + r1 + r2 + r3 + r4 + r5 + r6 <==> Finds(b, t, p, f) {
      assert f in r0 + r1 + r2 + r3 + r4 + r5 + r6 <==> f in r0 || f in r1 || f in r2 || f in r3 || f in r4 || f in r5 || f in r6;
    }
  }
}
