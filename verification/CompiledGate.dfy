/** The update gate applied to what the lineage compiler emits: the compiled graph has the shape that
    the gate's guarantees rest on, and a deny-all gate freezes the bytes of the runtime. */
module CompiledGate {
  import opened Sorting
  import opened TextOrder
  import opened Closure
  import opened PyText
  import opened Json
  import opened Platform
  import opened LineageGraph
  import opened LineageCompiler
  import opened LineageEvidence
  import opened UpdateGateTheorems
  import UpdateGate

  function Presented(c: Compiled): UpdateGate.Evidence {
    UpdateGate.Evidence(c.graph, c.report, c.snapshot)
  }

  // ------------------------------------------------------------------ reading a node list

  /** The id under which the gate files a node. */
  function KeyOf(node: Json): string {
    if node.Obj? then Strip(TextOrEmpty(Get(node.fields, "id"))) else ""
  }

  lemma {:induction false} NodesComeFrom(items: seq<Json>)
    ensures forall id | id in UpdateGate.NodesOf(items).entries ::
              id != "" && exists node :: node in items && KeyOf(node) == id && node.Obj? && node.fields == UpdateGate.NodesOf(items).entries[id]
    ensures forall node | node in items && KeyOf(node) != "" :: KeyOf(node) in UpdateGate.NodesOf(items).entries
  {
    hide Strip;
    if items != [] {
      var n := |items| - 1;
      NodesComeFrom(items[..n]);
      var front, all := UpdateGate.NodesOf(items[..n]).entries, UpdateGate.NodesOf(items).entries;
      assert items == items[..n] + [items[n]];
      assert all == if KeyOf(items[n]) == "" then front else front[KeyOf(items[n]) := items[n].fields];
      forall id | id in all
        ensures id != "" && exists node :: node in items && KeyOf(node) == id && node.Obj? && node.fields == all[id]
      {
        if KeyOf(items[n]) == id {
          assert items[n] in items && items[n].fields == all[id];
        } else {
          var node :| node in items[..n] && KeyOf(node) == id && node.Obj? && node.fields == front[id];
          assert node in items;
        }
      }
    }
  }

  // ------------------------------------------------------------------ the three kinds of nodes

  /** A governance node keeps out of the two namespaces of the compiler. */
  ghost predicate Foreign(node: Json) {
    node.Obj? ==> !("file:" <= KeyOf(node)) && !("registry:" <= KeyOf(node)) && Get(node.fields, "type") != Str("file")
  }

  /** Paths and module names that survive `strip`, and governance nodes under names of their own. */
  ghost predicate Tidy(i: Inputs, paths: set<Path>) {
    && (forall p | p in paths :: p != "" && Stripped(p))
    && (forall id | id in SnapshotModules(i) :: id != "" && Stripped(id))
    && (forall node | node in i.governance(paths).nodes :: Foreign(node))
  }

  lemma FileNodeKey(r: FileRecord)
    requires r.path != "" && Stripped(r.path)
    ensures KeyOf(FileNode(r)) == "file:" + r.path && ShapedNode("file:" + r.path, FileNode(r).fields)
    ensures Get(FileNode(r).fields, "sha256") == Str(r.sha256)
  {
    StripFixesExactly("file:" + r.path);
    assert ("file:" + r.path)[5..] == r.path;
  }

  lemma ModuleNodeKey(id: string)
    requires id != "" && Stripped(id)
    ensures KeyOf(ModuleNode(id)) == "registry:" + id && ShapedNode("registry:" + id, ModuleNode(id).fields)
    ensures !("file:" <= "registry:" + id)
  {
    StripFixesExactly("registry:" + id);
    assert ("registry:" + id)[0] == 'r' && "file:"[0] == 'f';
    assert ("registry:" + id)[9..] == id;
  }

  /** Whatever stands in the compiled node list is one of the three. */
  lemma NodeKinds(i: Inputs, records: seq<FileRecord>, g: Governance, node: Json)
    ensures node in GraphNodes(i, records, g) <==>
              (exists r :: r in records && node == FileNode(r)) ||
              (exists id :: id in SnapshotModules(i) && node == ModuleNode(id)) || node in g.nodes
  {
    hide SortText, FileNode, ModuleNode, SnapshotModules;
    var ids := SortText(SnapshotModules(i).Keys);
    var all := FileNodesOf(records) + ModuleNodesOf(ids) + g.nodes;
    SortByElements(all, NodeId);
    assert node in GraphNodes(i, records, g) <==> node in Elements(all);
    assert node in FileNodesOf(records) <==> exists r :: r in records && node == FileNode(r) by {
      if node in FileNodesOf(records) { var k :| 0 <= k < |records| && node == FileNodesOf(records)[k]; assert records[k] in records; }
      if r :| r in records && node == FileNode(r) { var k :| 0 <= k < |records| && records[k] == r; assert FileNodesOf(records)[k] == node; }
    }
    assert node in ModuleNodesOf(ids) <==> exists id :: id in SnapshotModules(i) && node == ModuleNode(id) by {
      if node in ModuleNodesOf(ids) { var k :| 0 <= k < |ids| && node == ModuleNodesOf(ids)[k]; assert ids[k] in Elements(ids); }
      if id :| id in SnapshotModules(i) && node == ModuleNode(id) {
        assert id in Elements(ids);
        var k :| 0 <= k < |ids| && ids[k] == id;
        assert ModuleNodesOf(ids)[k] == node;
      }
    }
  }

  // ------------------------------------------------------------------ the compiled graph

  lemma NodeListOf(pf: Platform, i: Inputs, py: set<Path>, fe: set<Path>, c: Compiled)
    requires IsLineage(pf, i, py, fe, c)
    ensures Get(c.graph, "nodes") == Arr(GraphNodes(i, c.records, i.governance(RuntimePaths(i, py, fe))))
    ensures c.records == RecordsAt(pf, i, py, fe, SortText(RuntimePaths(i, py, fe)))
  {
    hide GraphNodes, RecordsAt, SortText, RuntimePaths, AreClosures, AllFindings, AllEdges, Assembled;
    var paths := RuntimePaths(i, py, fe);
    NodesOfAssembled(pf, i, RecordsAt(pf, i, py, fe, SortText(paths)), AllEdges(i, py, fe), AllFindings(i, py, fe), i.governance(paths));
  }

  lemma NodesOfAssembled(pf: Platform, i: Inputs, records: seq<FileRecord>, edges: set<Edge>, findings: set<Finding>, g: Governance)
    ensures var c := Assembled(pf, i, records, edges, findings, g);
            c.records == records && Get(c.graph, "nodes") == Arr(GraphNodes(i, records, g))
  {
    hide GraphNodes, VerificationReport, ReportMaterial, RegistrySnapshot, SnapshotMaterial, EvidenceManifest, EvidenceMaterial, SortEdges, EdgesJson, HashOf;
  }

  lemma RecordsCover(pf: Platform, i: Inputs, py: set<Path>, fe: set<Path>, paths: set<Path>, records: seq<FileRecord>)
    requires forall p | p in SortText(paths) :: p in i.tree.files
    requires records == RecordsAt(pf, i, py, fe, SortText(paths))
    ensures forall r | r in records :: r.path in paths && r.path in i.tree.files && r == RecordAt(pf, i, py, fe, r.path)
    ensures forall p | p in paths :: exists r :: r in records && r.path == p
  {
    hide SortText, RolesAt, Sha, Seeding;
    var sorted := SortText(paths);
    forall r | r in records ensures r.path in paths && r.path in i.tree.files && r == RecordAt(pf, i, py, fe, r.path) {
      var k :| 0 <= k < |records| && records[k] == r;
      assert sorted[k] in Elements(sorted);
    }
    forall p | p in paths ensures exists r :: r in records && r.path == p {
      assert p in Elements(sorted);
      var k :| 0 <= k < |sorted| && sorted[k] == p;
      assert records[k] in records;
    }
  }

  lemma NodeIsShaped(i: Inputs, paths: set<Path>, records: seq<FileRecord>, node: Json)
    requires Tidy(i, paths) && node.Obj? && node in GraphNodes(i, records, i.governance(paths))
    requires forall r | r in records :: r.path in paths
    ensures ShapedNode(KeyOf(node), node.fields)
    ensures "file:" <= KeyOf(node) ==> exists r :: r in records && node == FileNode(r) && KeyOf(node) == "file:" + r.path
  {
    hide GraphNodes, KeyOf, FileNode, ModuleNode, SnapshotModules, Stripped;
    NodeKinds(i, records, i.governance(paths), node);
    if r :| r in records && node == FileNode(r) {
      FileNodeKey(r);
    } else if id :| id in SnapshotModules(i) && node == ModuleNode(id) {
      ModuleNodeKey(id);
    }
  }

  /** A graph's file nodes are exactly those of the runtime files, and show what was recorded of them. */
  ghost predicate Carries(pf: Platform, i: Inputs, py: set<Path>, fe: set<Path>, nodes: map<string, Dict>) {
    forall p ::
      && ("file:" + p in nodes <==> p in RuntimePaths(i, py, fe))
      && (p in RuntimePaths(i, py, fe) ==> p in i.tree.files && nodes["file:" + p] == FileFields(RecordAt(pf, i, py, fe, p)))
  }

  /** The compiler emits graphs in the shape that the gate's theorems ask for, with exactly one file
      node per runtime file, carrying that file's hash, roles and owners. */
  lemma CompiledGraphIsShaped(pf: Platform, i: Inputs, py: set<Path>, fe: set<Path>, c: Compiled)
    requires IsLineage(pf, i, py, fe, c) && Tidy(i, RuntimePaths(i, py, fe))
    ensures Shaped(Presented(c))
    ensures Carries(pf, i, py, fe, UpdateGate.Nodes(Presented(c)))
  {
    var paths := RuntimePaths(i, py, fe);
    var items := GraphNodes(i, c.records, i.governance(paths));
    hide AreClosures, AllEdges, AllFindings, Assembled, RuntimePaths, GraphNodes, SortText, RecordsAt, KeyOf, ShapedNode, FileFields, RecordAt;
    NodeListOf(pf, i, py, fe, c);
    assert forall p | p in SortText(paths) :: p in i.tree.files;
    hide IsLineage;
    RecordsCover(pf, i, py, fe, paths, c.records);
    NodesComeFrom(items);
    var nodes := UpdateGate.Nodes(Presented(c));
    assert nodes == UpdateGate.NodesOf(items).entries;
    forall id | id in nodes ensures ShapedNode(id, nodes[id]) {
      var node :| node in items && KeyOf(node) == id && node.Obj? && node.fields == nodes[id];
      NodeIsShaped(i, paths, c.records, node);
    }
    forall p ensures "file:" + p in nodes <==> p in paths
             ensures p in paths ==> p in i.tree.files && nodes["file:" + p] == FileFields(RecordAt(pf, i, py, fe, p)) {
      FileNodeIn(pf, i, py, fe, c.records, items, p);
    }
  }

  lemma FileNodeIn(pf: Platform, i: Inputs, py: set<Path>, fe: set<Path>, records: seq<FileRecord>, items: seq<Json>, p: Path)
    requires Tidy(i, RuntimePaths(i, py, fe)) && items == GraphNodes(i, records, i.governance(RuntimePaths(i, py, fe)))
    requires forall r | r in records :: r.path in RuntimePaths(i, py, fe) && r.path in i.tree.files && r == RecordAt(pf, i, py, fe, r.path)
    requires forall q | q in RuntimePaths(i, py, fe) :: exists r :: r in records && r.path == q
    ensures var nodes := UpdateGate.NodesOf(items).entries;
            && ("file:" + p in nodes <==> p in RuntimePaths(i, py, fe))
            && (p in RuntimePaths(i, py, fe) ==> p in i.tree.files && nodes["file:" + p] == FileFields(RecordAt(pf, i, py, fe, p)))
  {
    hide GraphNodes, KeyOf, ShapedNode, FileFields, RecordAt, Stripped, UpdateGate.NodesOf, RuntimePaths;
    var paths := RuntimePaths(i, py, fe);
    NodesComeFrom(items);
    var nodes := UpdateGate.NodesOf(items).entries;
    if p in paths {
      var r :| r in records && r.path == p;
      NodeKinds(i, records, i.governance(paths), FileNode(r));
      FileNodeKey(r);
      assert KeyOf(FileNode(r)) != "";
      assert "file:" + p in nodes;
    }
    if "file:" + p in nodes {
      var node :| node in items && KeyOf(node) == "file:" + p && node.Obj? && node.fields == nodes["file:" + p];
      NodeIsShaped(i, paths, records, node);
      var r :| r in records && node == FileNode(r) && KeyOf(node) == "file:" + r.path;
      assert ("file:" + p)[5..] == p && ("file:" + r.path)[5..] == r.path;
    }
  }

  /** An update that the deny-all gate admits has the same runtime files, byte for byte. */
  lemma DenyAllFreezesTheRuntime(pf: Platform, i: Inputs, j: Inputs, c: Compiled, d: Compiled,
                                 py: set<Path>, fe: set<Path>, py': set<Path>, fe': set<Path>)
    requires IsLineage(pf, i, py, fe, c) && Tidy(i, RuntimePaths(i, py, fe))
    requires IsLineage(pf, j, py', fe', d) && Tidy(j, RuntimePaths(j, py', fe'))
    requires UpdateGate.Admitted(Presented(c), Presented(d), UpdateGate.ProfileOf(map[]))
    ensures forall p :: FrozenAt(pf, i, j, RuntimePaths(i, py, fe), RuntimePaths(j, py', fe'), p)
  {
    CompiledGraphIsShaped(pf, i, py, fe, c);
    CompiledGraphIsShaped(pf, j, py', fe', d);
    DenyAllMeansEqual(Presented(c), Presented(d));
    hide IsLineage, RuntimePaths, Tidy, UpdateGate.Admitted, UpdateGate.Nodes, UpdateGate.Verified, UpdateGate.Edges, Shaped, Carries,
         FrozenAt, UpdateGate.ChangedModules, UpdateGate.ChangedSpecials, UpdateGate.Differing, UpdateGate.ProfileOf;
    forall p ensures FrozenAt(pf, i, j, RuntimePaths(i, py, fe), RuntimePaths(j, py', fe'), p) {
      SameNodesSameFile(pf, i, j, py, fe, py', fe', UpdateGate.Nodes(Presented(c)), UpdateGate.Nodes(Presented(d)), p);
    }
  }

  /** A path is a runtime file of both trees, with the same bytes unless those collide, or of neither. */
  ghost predicate FrozenAt(pf: Platform, i: Inputs, j: Inputs, before: set<Path>, after: set<Path>, p: Path) {
    && (p in before <==> p in after)
    && (p in before ==> p in i.tree.files && p in j.tree.files && (i.tree.files[p].data == j.tree.files[p].data || Collides(pf, i.tree.files[p].data, j.tree.files[p].data)))
  }

  lemma SameNodesSameFile(pf: Platform, i: Inputs, j: Inputs, py: set<Path>, fe: set<Path>, py': set<Path>, fe': set<Path>,
                          before: map<string, Dict>, after: map<string, Dict>, p: Path)
    requires Carries(pf, i, py, fe, before) && Carries(pf, j, py', fe', after)
    requires UpdateGate.Differing(before, after) == {}
    ensures FrozenAt(pf, i, j, RuntimePaths(i, py, fe), RuntimePaths(j, py', fe'), p)
  {
    hide Sha, Collides, UpdateGate.Differing, RuntimePaths, RolesAt, SortText, Seeding;
    SameHash(before, after, "file:" + p);
    if p in RuntimePaths(i, py, fe) && p in RuntimePaths(j, py', fe') { ShaSame(pf, i.tree.files[p].data, j.tree.files[p].data); }
  }

  lemma SameHash(before: map<string, Dict>, after: map<string, Dict>, id: string)
    requires UpdateGate.Differing(before, after) == {}
    ensures id in before <==> id in after
    ensures id in before ==> Get(before[id], "sha256") == Get(after[id], "sha256")
  {
    assert UpdateGate.Differ(before, after, id) ==> id in UpdateGate.Differing(before, after);
    if id in before && id in after {
      assert Get(before[id], "sha256") == Get(UpdateGate.Normalized(before[id]), "sha256");
      assert Get(after[id], "sha256") == Get(UpdateGate.Normalized(after[id]), "sha256");
    }
  }
}
