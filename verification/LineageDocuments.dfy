/** What the compiled documents say, field by field: the file records, the graph with its nodes and
    edges, the registry snapshot, the verification report and the evidence manifest. Every document's
    own hash is the digest of that document without its signature. */
module LineageDocuments {
  import opened Sorting
  import opened TextOrder
  import opened Closure
  import opened Json
  import opened Platform
  import opened LineageGraph
  import opened LineageCompiler
  import opened LineageEvidence
  import opened LineageContract
  import CompiledGate

  // ------------------------------------------------------------------ records

  /** The record lists the file's roles and its owners, each once and in order. */
  ghost predicate TellsOf(pf: Platform, i: Inputs, py: set<Path>, fe: set<Path>, r: FileRecord) {
    && r.path in i.tree.files
    && r.sha256 == "sha256:" + pf.hex(i.tree.files[r.path].data) && r.size == |i.tree.files[r.path].data|
    && Ascending(r.roles, Less) && (forall role :: role in r.roles <==> RoleDue(i, py, fe, r.path, role))
    && Ascending(r.modules, Less) && forall m :: m in r.modules <==> OwnedBy(i, r.path, m)
  }

  /** One record for each runtime file, in the order of the paths, telling hash, size, roles and owners. */
  lemma RecordsExactly(pf: Platform, i: Inputs, py: set<Path>, fe: set<Path>, c: Compiled)
    requires IsLineage(pf, i, py, fe, c)
    ensures forall j, k | 0 <= j < k < |c.records| :: Less(c.records[j].path, c.records[k].path)
    ensures forall p :: p in RuntimePaths(i, py, fe) <==> exists r :: r in c.records && r.path == p
    ensures forall r | r in c.records :: TellsOf(pf, i, py, fe, r)
  {
    hide RuntimePaths, Assembled, AllEdges, AllFindings, RecordsAt, SortText, AreClosures, RecordAt, TellsOf, Less;
    var paths := RuntimePaths(i, py, fe);
    CompiledGate.NodeListOf(pf, i, py, fe, c);
    CompiledGate.RecordsCover(pf, i, py, fe, paths, c.records);
    RecordsInOrder(pf, i, py, fe, SortText(paths));
    forall r | r in c.records ensures TellsOf(pf, i, py, fe, r) { RecordTells(pf, i, py, fe, r.path); }
    forall p ensures p in paths <==> exists r :: r in c.records && r.path == p {}
  }

  lemma RecordsInOrder(pf: Platform, i: Inputs, py: set<Path>, fe: set<Path>, paths: seq<Path>)
    requires Ascending(paths, Less) && forall p | p in paths :: p in i.tree.files
    ensures var records := RecordsAt(pf, i, py, fe, paths);
            |records| == |paths| && forall j, k | 0 <= j < k < |records| :: Less(records[j].path, records[k].path)
  {
    hide Less, RolesAt, SortText, Seeding, SeedOwners, Sha;
  }

  lemma RecordTells(pf: Platform, i: Inputs, py: set<Path>, fe: set<Path>, p: Path)
    requires p in i.tree.files
    ensures RecordAt(pf, i, py, fe, p).path == p && TellsOf(pf, i, py, fe, RecordAt(pf, i, py, fe, p))
  {
    hide Less, Ascending, SortText, RolesAt, Seeding, SeedOwners, RoleDue, OwnedBy;
    var r := RecordAt(pf, i, py, fe, p);
    forall role ensures role in r.roles <==> RoleDue(i, py, fe, p, role) {
      RolesExactly(i, py, fe, p, role);
      assert role in r.roles <==> role in Elements(r.roles);
    }
    forall m ensures m in r.modules <==> OwnedBy(i, p, m) {
      OwnersExactly(i, p, m);
      assert m in r.modules <==> m in Elements(r.modules);
    }
  }

  // ------------------------------------------------------------------ hashes

  ghost predicate IsDigestOf(pf: Platform, value: Json, of: Json) {
    value == Str("sha256:" + pf.hex(pf.canon(of)))
  }

  /** The digest of the runtime: path, hash and size of the records, in their order. */
  ghost predicate IsRuntimeDigest(pf: Platform, value: Json, records: seq<FileRecord>) {
    exists items ::
      && |items| == |records| && IsDigestOf(pf, value, Arr(items))
      && forall k | 0 <= k < |items| ::
           items[k] == Obj(map["path" := Str(records[k].path), "sha256" := Str(records[k].sha256), "size" := Num(records[k].size)])
  }

  lemma RuntimeIsDigested(pf: Platform, records: seq<FileRecord>)
    ensures IsRuntimeDigest(pf, Str(HashOf(pf, RuntimeMaterial(records))), records)
  {
    var items := RuntimeMaterial(records).items;
    assert IsDigestOf(pf, Str(HashOf(pf, RuntimeMaterial(records))), Arr(items));
  }

  // ------------------------------------------------------------------ the parts of a lineage

  /** The documents of a lineage, one by one. */
  lemma DocumentsOf(pf: Platform, i: Inputs, py: set<Path>, fe: set<Path>, c: Compiled)
    requires IsLineage(pf, i, py, fe, c)
    ensures var g := i.governance(RuntimePaths(i, py, fe));
            && c.graph == GraphDocument(pf, i, GraphMaterial(GraphNodes(i, c.records, g), AllEdges(i, py, fe)))
            && c.report == VerificationReport(pf, ReportMaterial(pf, i, c.records, c.findings, g, Text(Get(c.graph, "graphHash"))), c.findings)
            && c.snapshot == RegistrySnapshot(pf, SnapshotMaterial(pf, i, c.records, g))
            && c.evidence == EvidenceManifest(pf, EvidenceMaterial(pf, i, c.snapshot, c.report, c.findings, g))
            && c.governance == g.document
  {
    hide RuntimePaths, AllEdges, AllFindings, RecordsAt, SortText, AreClosures, GraphDocument, GraphMaterial, GraphNodes, VerificationReport,
         ReportMaterial, RegistrySnapshot, SnapshotMaterial, EvidenceManifest, EvidenceMaterial;
  }

  // ------------------------------------------------------------------ the report

  /** The document is its material with a signature, and the signature's `own` is the digest of the material. */
  ghost predicate Signed(pf: Platform, d: Dict, own: string, rest: Dict) {
    exists material: Dict :: IsDigestOf(pf, Get(d, own), Obj(material)) && d == material + rest + map[own := Get(d, own)]
  }

  lemma IsSigned(pf: Platform, material: Dict, own: string, rest: Dict)
    ensures var d := material + rest + map[own := Str(HashOf(pf, Obj(material)))];
            IsDigestOf(pf, Get(d, own), Obj(material)) && Signed(pf, d, own, rest)
  {
  }

  /** The governance hashes of the report, which the update gate compares, are those of the governance document. */
  ghost predicate ShowsGovernance(d: Dict, g: Dict) {
    && Get(d, "productBoundaryHash") == Get(g, "productBoundaryHash")
    && Get(d, "externalInterfaceRegistryHash") == Get(g, "externalInterfaceRegistryHash")
    && Get(d, "interfaceGovernanceHash") == Get(g, "governanceHash")
  }

  /** The report is verified exactly when there is no finding; it names commit, registry, runtime and
      graph, and its hash covers everything but the verdict. */
  lemma ReportExactly(pf: Platform, i: Inputs, py: set<Path>, fe: set<Path>, c: Compiled)
    requires IsLineage(pf, i, py, fe, c)
    ensures Get(c.report, "verified") == Bool(c.findings == {})
    ensures Signed(pf, c.report, "verificationHash", map["verified" := Bool(c.findings == {})])
    ensures Get(c.report, "sourceCommit") == Str(i.commit) && Get(c.report, "graphHash") == Get(c.graph, "graphHash")
    ensures IsRuntimeDigest(pf, Get(c.report, "runtimeHash"), c.records)
    ensures Get(c.report, "registryRootHash") == Str(i.scope.actualRegistryHash) && ShowsGovernance(c.report, c.governance)
    ensures Get(c.report, "findings") == Texts(SortText(set f | f in c.findings :: i.message(f)))
  {
    hide RuntimePaths, AllEdges, IsLineage, GraphMaterial, GraphNodes, ReportMaterial, RegistrySnapshot, SnapshotMaterial, EvidenceManifest,
         EvidenceMaterial, IsRuntimeDigest, HashOf, Signed, ShowsGovernance, VerificationReport, GraphDocument, Texts, SortText;
    DocumentsOf(pf, i, py, fe, c);
    var g := i.governance(RuntimePaths(i, py, fe));
    var graphHash := Text(Get(c.graph, "graphHash"));
    GraphHash(pf, i, GraphMaterial(GraphNodes(i, c.records, g), AllEdges(i, py, fe)));
    ReportIsSigned(pf, ReportMaterial(pf, i, c.records, c.findings, g, graphHash), c.findings);
    ReportCoreShows(pf, i, c.records, c.findings, g, graphHash);
    ReportContextShows(pf, i, c.records, c.findings, g, graphHash);
    ReportShowsGovernance(pf, i, c.records, c.findings, g, graphHash);
  }

  lemma ReportIsSigned(pf: Platform, material: Dict, findings: set<LineageCompiler.Finding>)
    ensures var d := VerificationReport(pf, material, findings);
            Get(d, "verified") == Bool(findings == {}) && Signed(pf, d, "verificationHash", map["verified" := Bool(findings == {})])
  {
    hide Signed, HashOf;
    var rest := map["verified" := Bool(findings == {})];
    IsSigned(pf, material, "verificationHash", rest);
    assert VerificationReport(pf, material, findings) == material + rest + map["verificationHash" := Str(HashOf(pf, Obj(material)))];
  }

  /** Where the report reads a field from. */
  lemma ReportField(pf: Platform, i: Inputs, records: seq<FileRecord>, findings: set<LineageCompiler.Finding>, g: Governance, graphHash: string, key: string)
    requires key != "verified" && key != "verificationHash"
    ensures Get(VerificationReport(pf, ReportMaterial(pf, i, records, findings, g, graphHash), findings), key) ==
              if key in ReportCore(pf, i, records, graphHash) then Get(ReportCore(pf, i, records, graphHash), key)
              else if key in ReportContext(pf, i, records, findings, g) then Get(ReportContext(pf, i, records, findings, g), key)
              else Get(Governed(g), key)
  {
    hide ReportCore, ReportContext, Governed, HashOf;
  }

  lemma ReportCoreShows(pf: Platform, i: Inputs, records: seq<FileRecord>, findings: set<LineageCompiler.Finding>, g: Governance, graphHash: string)
    ensures var d := VerificationReport(pf, ReportMaterial(pf, i, records, findings, g, graphHash), findings);
            && Get(d, "sourceCommit") == Str(i.commit) && Get(d, "graphHash") == Str(graphHash)
            && IsRuntimeDigest(pf, Get(d, "runtimeHash"), records)
  {
    hide ReportContext, Governed, HashOf, VerificationReport, ReportMaterial, IsRuntimeDigest, RuntimeMaterial;
    RuntimeIsDigested(pf, records);
    ReportField(pf, i, records, findings, g, graphHash, "sourceCommit");
    ReportField(pf, i, records, findings, g, graphHash, "graphHash");
    ReportField(pf, i, records, findings, g, graphHash, "runtimeHash");
  }

  lemma ReportContextShows(pf: Platform, i: Inputs, records: seq<FileRecord>, findings: set<LineageCompiler.Finding>, g: Governance, graphHash: string)
    ensures var d := VerificationReport(pf, ReportMaterial(pf, i, records, findings, g, graphHash), findings);
            && Get(d, "registryRootHash") == Str(i.scope.actualRegistryHash)
            && Get(d, "findings") == Texts(SortText(set f | f in findings :: i.message(f)))
  {
    hide Governed, HashOf, VerificationReport, ReportMaterial, RuntimeMaterial, SnapshotModules, EntriesJson, Texts, Warnings, ShadowsOf, SortText;
    ReportField(pf, i, records, findings, g, graphHash, "registryRootHash");
    ReportField(pf, i, records, findings, g, graphHash, "findings");
  }

  lemma ReportShowsGovernance(pf: Platform, i: Inputs, records: seq<FileRecord>, findings: set<LineageCompiler.Finding>, g: Governance, graphHash: string)
    ensures ShowsGovernance(VerificationReport(pf, ReportMaterial(pf, i, records, findings, g, graphHash), findings), g.document)
  {
    hide Governed, HashOf, VerificationReport, ReportMaterial, ReportContext, ReportCore;
    ReportField(pf, i, records, findings, g, graphHash, "productBoundaryHash");
    ReportField(pf, i, records, findings, g, graphHash, "externalInterfaceRegistryHash");
    ReportField(pf, i, records, findings, g, graphHash, "interfaceGovernanceHash");
    GovernanceIsElsewhere(pf, i, records, findings, g, graphHash);
    GovernedShows(g);
  }

  lemma GovernanceIsElsewhere(pf: Platform, i: Inputs, records: seq<FileRecord>, findings: set<LineageCompiler.Finding>, g: Governance, graphHash: string)
    ensures "productBoundaryHash" !in ReportContext(pf, i, records, findings, g) + ReportCore(pf, i, records, graphHash)
    ensures "externalInterfaceRegistryHash" !in ReportContext(pf, i, records, findings, g) + ReportCore(pf, i, records, graphHash)
    ensures "interfaceGovernanceHash" !in ReportContext(pf, i, records, findings, g) + ReportCore(pf, i, records, graphHash)
  {
    NotInContext(pf, i, records, findings, g);
    NotInCore(pf, i, records, graphHash);
    hide ReportContext, ReportCore;
  }

  lemma NotInContext(pf: Platform, i: Inputs, records: seq<FileRecord>, findings: set<LineageCompiler.Finding>, g: Governance)
    ensures "productBoundaryHash" !in ReportContext(pf, i, records, findings, g)
    ensures "externalInterfaceRegistryHash" !in ReportContext(pf, i, records, findings, g)
    ensures "interfaceGovernanceHash" !in ReportContext(pf, i, records, findings, g)
  {
    hide HashOf, SnapshotModules, EntriesJson, Texts, Warnings, ShadowsOf, SortText;
  }

  lemma NotInCore(pf: Platform, i: Inputs, records: seq<FileRecord>, graphHash: string)
    ensures "productBoundaryHash" !in ReportCore(pf, i, records, graphHash)
    ensures "externalInterfaceRegistryHash" !in ReportCore(pf, i, records, graphHash)
    ensures "interfaceGovernanceHash" !in ReportCore(pf, i, records, graphHash)
  {
    hide HashOf, RuntimeMaterial;
  }

  lemma GovernedShows(g: Governance)
    ensures ShowsGovernance(Governed(g), g.document)
  {
  }

  // ------------------------------------------------------------------ the graph

  /** The nodes of the graph: one for each record, one for each required module, and those of the governance compiler. */
  ghost predicate NodeDue(i: Inputs, records: seq<FileRecord>, g: Governance, node: Json) {
    || (exists r :: r in records && node == Obj(map["id" := Str("file:" + r.path), "type" := Str("file"), "path" := Str(r.path),
          "sha256" := Str(r.sha256), "roles" := Texts(r.roles), "registryModules" := Texts(r.modules)]))
    || (exists m :: Required(i, m) && node == Obj(map["id" := Str("registry:" + m), "type" := Str("registry_module"), "moduleId" := Str(m)]))
    || node in g.nodes
  }

  ghost predicate EdgeShown(i: Inputs, py: set<Path>, fe: set<Path>, shown: Json) {
    exists e :: EdgeDue(i, py, fe, e) && shown == Obj(map["from" := Str(e.source), "to" := Str(e.target), "type" := Str(e.kind)])
  }

  /** The graph lists exactly the due nodes and the due edges, and its hash covers these two lists. */
  lemma GraphExactly(pf: Platform, i: Inputs, py: set<Path>, fe: set<Path>, c: Compiled)
    requires IsLineage(pf, i, py, fe, c)
    ensures Get(c.graph, "nodes").Arr? && Get(c.graph, "edges").Arr?
    ensures forall node :: node in Get(c.graph, "nodes").items <==> NodeDue(i, c.records, i.governance(RuntimePaths(i, py, fe)), node)
    ensures forall shown :: shown in Get(c.graph, "edges").items <==> EdgeShown(i, py, fe, shown)
    ensures IsDigestOf(pf, Get(c.graph, "graphHash"), Obj(map["nodes" := Get(c.graph, "nodes"), "edges" := Get(c.graph, "edges")]))
    ensures Get(c.graph, "sourceCommit") == Str(i.commit)
  {
    hide RuntimePaths, AllEdges, IsLineage, GraphMaterial, GraphNodes, ReportMaterial, RegistrySnapshot, SnapshotMaterial, EvidenceManifest,
         EvidenceMaterial, HashOf, VerificationReport, GraphDocument, NodeDue, EdgeShown, SortEdges, EdgesJson;
    DocumentsOf(pf, i, py, fe, c);
    var g := i.governance(RuntimePaths(i, py, fe));
    var nodes, edges := GraphNodes(i, c.records, g), AllEdges(i, py, fe);
    GraphShows(pf, i, nodes, edges);
    forall node ensures node in nodes <==> NodeDue(i, c.records, g, node) { NodesExactly(i, c.records, g, node); }
    forall shown ensures shown in EdgesJson(SortEdges(edges)) <==> EdgeShown(i, py, fe, shown) { EdgesShown(i, py, fe, shown); }
  }

  lemma GraphShows(pf: Platform, i: Inputs, nodes: seq<Json>, edges: set<Edge>)
    ensures var d := GraphDocument(pf, i, GraphMaterial(nodes, edges));
            && Get(d, "nodes") == Arr(nodes) && Get(d, "edges") == Arr(EdgesJson(SortEdges(edges))) && Get(d, "sourceCommit") == Str(i.commit)
            && IsDigestOf(pf, Get(d, "graphHash"), Obj(map["nodes" := Get(d, "nodes"), "edges" := Get(d, "edges")]))
  {
    hide SortEdges, EdgesJson;
    GraphHash(pf, i, GraphMaterial(nodes, edges));
  }

  lemma NodesExactly(i: Inputs, records: seq<FileRecord>, g: Governance, node: Json)
    ensures node in GraphNodes(i, records, g) <==> NodeDue(i, records, g, node)
  {
    hide GraphNodes, Texts;
    CompiledGate.NodeKinds(i, records, g, node);
    assert forall m :: m in SnapshotModules(i) <==> Required(i, m);
  }

  lemma EdgesShown(i: Inputs, py: set<Path>, fe: set<Path>, shown: Json)
    ensures shown in EdgesJson(SortEdges(AllEdges(i, py, fe))) <==> EdgeShown(i, py, fe, shown)
  {
    hide AllEdges, EdgeDue, SortEdges;
    var edges := SortEdges(AllEdges(i, py, fe));
    forall e ensures e in edges <==> EdgeDue(i, py, fe, e) {
      EdgesExactly(i, py, fe, e);
      assert e in edges <==> e in Elements(edges);
    }
    if e :| EdgeDue(i, py, fe, e) && shown == Obj(map["from" := Str(e.source), "to" := Str(e.target), "type" := Str(e.kind)]) {
      var k :| 0 <= k < |edges| && edges[k] == e;
      assert EdgesJson(edges)[k] == shown;
    }
  }

  lemma GraphHash(pf: Platform, i: Inputs, material: Dict)
    ensures Get(GraphDocument(pf, i, material), "graphHash") == Str(HashOf(pf, Obj(material)))
  {
    hide HashOf;
  }

  // ------------------------------------------------------------------ the snapshot and the evidence manifest

  /** The manifest of the evidence names the other three documents by their hashes, carries the verdict,
      and is signed; so is the registry snapshot. */
  lemma EvidenceExactly(pf: Platform, i: Inputs, py: set<Path>, fe: set<Path>, c: Compiled)
    requires IsLineage(pf, i, py, fe, c)
    ensures Get(c.evidence, "verified") == Bool(c.findings == {}) && Get(c.evidence, "sourceCommit") == Str(i.commit)
    ensures Get(c.evidence, "entrypoint") == if |i.scope.entrypoints| == 1 then Str(i.scope.entrypoints[0]) else Null
    ensures Get(c.evidence, "runtimeHash") == Get(c.report, "runtimeHash") && Get(c.evidence, "lineageGraphHash") == Get(c.report, "graphHash")
    ensures Get(c.evidence, "verificationHash") == Get(c.report, "verificationHash")
    ensures Get(c.evidence, "registrySnapshotHash") == Get(c.snapshot, "snapshotHash")
    ensures Signed(pf, c.evidence, "manifestHash", map[]) && Signed(pf, c.snapshot, "snapshotHash", map[])
  {
    hide RuntimePaths, AllEdges, IsLineage, GraphMaterial, GraphNodes, ReportMaterial, RegistrySnapshot, SnapshotMaterial, EvidenceManifest,
         EvidenceMaterial, HashOf, Signed, VerificationReport, GraphDocument;
    DocumentsOf(pf, i, py, fe, c);
    var g := i.governance(RuntimePaths(i, py, fe));
    SnapshotIsSigned(pf, SnapshotMaterial(pf, i, c.records, g));
    EvidenceIsSigned(pf, EvidenceMaterial(pf, i, c.snapshot, c.report, c.findings, g));
    EvidenceCoreShows(pf, i, c.snapshot, c.report, c.findings, g);
    EvidenceContextShows(pf, i, c.snapshot, c.report, c.findings, g);
  }

  lemma SnapshotIsSigned(pf: Platform, material: Dict)
    ensures Signed(pf, RegistrySnapshot(pf, material), "snapshotHash", map[])
  {
    hide Signed, HashOf;
    IsSigned(pf, material, "snapshotHash", map[]);
    assert material + map[] == material;
  }

  lemma EvidenceIsSigned(pf: Platform, material: Dict)
    ensures Signed(pf, EvidenceManifest(pf, material), "manifestHash", map[])
  {
    hide Signed, HashOf;
    IsSigned(pf, material, "manifestHash", map[]);
    assert material + map[] == material;
  }

  lemma EvidenceField(pf: Platform, i: Inputs, snapshot: Dict, report: Dict, findings: set<LineageCompiler.Finding>, g: Governance, key: string)
    requires key != "manifestHash"
    ensures Get(EvidenceManifest(pf, EvidenceMaterial(pf, i, snapshot, report, findings, g)), key) ==
              if key in EvidenceCore(i, findings) then Get(EvidenceCore(i, findings), key)
              else if key in EvidenceContext(pf, i, snapshot, report) then Get(EvidenceContext(pf, i, snapshot, report), key)
              else Get(Governed(g), key)
  {
    hide EvidenceCore, EvidenceContext, Governed, HashOf;
  }

  lemma EvidenceCoreShows(pf: Platform, i: Inputs, snapshot: Dict, report: Dict, findings: set<LineageCompiler.Finding>, g: Governance)
    ensures var d := EvidenceManifest(pf, EvidenceMaterial(pf, i, snapshot, report, findings, g));
            && Get(d, "verified") == Bool(findings == {}) && Get(d, "sourceCommit") == Str(i.commit)
            && Get(d, "entrypoint") == if |i.scope.entrypoints| == 1 then Str(i.scope.entrypoints[0]) else Null
  {
    hide EvidenceContext, Governed, HashOf, EvidenceManifest, EvidenceMaterial;
    EvidenceField(pf, i, snapshot, report, findings, g, "verified");
    EvidenceField(pf, i, snapshot, report, findings, g, "sourceCommit");
    EvidenceField(pf, i, snapshot, report, findings, g, "entrypoint");
  }

  lemma EvidenceContextShows(pf: Platform, i: Inputs, snapshot: Dict, report: Dict, findings: set<LineageCompiler.Finding>, g: Governance)
    ensures var d := EvidenceManifest(pf, EvidenceMaterial(pf, i, snapshot, report, findings, g));
            && Get(d, "runtimeHash") == Get(report, "runtimeHash") && Get(d, "lineageGraphHash") == Get(report, "graphHash")
            && Get(d, "verificationHash") == Get(report, "verificationHash") && Get(d, "registrySnapshotHash") == Get(snapshot, "snapshotHash")
  {
    hide Governed, HashOf, EvidenceManifest, EvidenceMaterial;
    EvidenceField(pf, i, snapshot, report, findings, g, "runtimeHash");
    EvidenceField(pf, i, snapshot, report, findings, g, "lineageGraphHash");
    EvidenceField(pf, i, snapshot, report, findings, g, "verificationHash");
    EvidenceField(pf, i, snapshot, report, findings, g, "registrySnapshotHash");
  }
}
