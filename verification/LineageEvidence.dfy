/** scripts/compile_competition_lineage.py, the second half: from a finished run to file records,
    hashes and documents, and `write_outputs`. */
module LineageEvidence {
  import opened Sorting
  import opened TextOrder
  import opened Closure
  import opened Json
  import opened Platform
  import opened Wrappers
  import opened LineageGraph
  import opened LineageText
  import opened LineageCompiler

  /** What `compile_interface_governance` returns; the model does not look into it. */
  datatype Governance = Governance(findings: seq<string>, warnings: seq<string>, edges: set<Edge>, nodes: seq<Json>, document: Dict)

  datatype Inputs = Inputs(
    tree: Tree, scope: Scope, identity: Dict, registry: Dict, commit: string,
    governance: set<Path> -> Governance,
    message: Finding -> string)         // the text of a finding

  datatype FileRecord = FileRecord(path: Path, sha256: string, size: nat, roles: seq<string>, modules: seq<string>)

  datatype Compiled = Compiled(
    records: seq<FileRecord>, findings: set<Finding>,
    snapshot: Dict, graph: Dict, report: Dict, evidence: Dict, governance: Dict)

  // ------------------------------------------------------------------ what a run must have found

  function Seeding(i: Inputs): seq<Action> {
    Actions(i.tree, i.scope)
  }

  /** `py` and `fe` are what the two worklists visited. */
  ghost predicate AreClosures(i: Inputs, py: set<Path>, fe: set<Path>) {
    && py <= i.tree.files.Keys && fe <= i.tree.files.Keys
    && IsReach(Imports(i.tree), SeedsFor(i.tree, Seeding(i), PythonQueue), py)
    && IsReach(References(i.tree), SeedsFor(i.tree, Seeding(i), FrontendQueue), fe)
  }

  /** The runtime: the seeds, both closures, and the package initialisers of all of these. */
  function RuntimePaths(i: Inputs, py: set<Path>, fe: set<Path>): set<Path> {
    WithInitializers(i.tree, Seeds(i.tree, Seeding(i)) + py + fe)
  }

  function RolesAt(i: Inputs, py: set<Path>, fe: set<Path>, p: Path): set<string> {
    SeedRoles(i.tree, Seeding(i), p) + (if p in py then {"python_import_closure"} else {}) +
    (if p in fe then {"frontend_reference_closure"} else {})
  }

  function AllEdges(i: Inputs, py: set<Path>, fe: set<Path>): set<Edge> {
    SeedEdges(i.tree, Seeding(i)) + FileEdges(Imports(i.tree), py, "IMPORTS") +
    FileEdges(References(i.tree), fe, "REFERENCES") + i.governance(RuntimePaths(i, py, fe)).edges
  }

  function Reported(texts: seq<string>): set<Finding> {
    set text | text in texts :: GovernanceProblem(text)
  }

  /** The application objects in the tree that the scope does not declare. */
  function Shadows(entries: seq<AppEntrypoint>, declared: seq<string>): seq<AppEntrypoint> {
    if entries == [] then [] else
      (if entries[0].entrypoint in declared then [] else [entries[0]]) + Shadows(entries[1..], declared)
  }

  function Names(entries: seq<AppEntrypoint>): seq<string> {
    seq(|entries|, k requires 0 <= k < |entries| => entries[k].entrypoint)
  }

  function ShadowsOf(i: Inputs): seq<AppEntrypoint> {
    Shadows(i.tree.appEntrypoints, i.scope.entrypoints)
  }

  function ShadowFindings(i: Inputs): set<Finding> {
    if ShadowsOf(i) != [] && i.scope.failOnShadow then {LineageCompiler.ShadowEntrypoints(Names(ShadowsOf(i)))} else {}
  }

  function AllFindings(i: Inputs, py: set<Path>, fe: set<Path>): set<Finding> {
    var paths := RuntimePaths(i, py, fe);
    SeedFindings(i.tree, Seeding(i)) + ImportProblems(i.tree, py) + Reported(i.governance(paths).findings) +
    BoundarySet(i.scope, SortText(paths)) + ShadowFindings(i)
  }

  lemma RuntimeExists(i: Inputs, py: set<Path>, fe: set<Path>)
    requires py <= i.tree.files.Keys && fe <= i.tree.files.Keys
    ensures RuntimePaths(i, py, fe) <= i.tree.files.Keys
  {
    hide HasSuffix;
  }

  // ------------------------------------------------------------------ records

  function RecordAt(pf: Platform, i: Inputs, py: set<Path>, fe: set<Path>, p: Path): FileRecord
    requires p in i.tree.files
  {
    FileRecord(p, Sha(pf, i.tree.files[p].data), |i.tree.files[p].data|,
               SortText(RolesAt(i, py, fe, p)), SortText(SeedOwners(i.tree, Seeding(i), p)))
  }

  function RecordsAt(pf: Platform, i: Inputs, py: set<Path>, fe: set<Path>, paths: seq<Path>): seq<FileRecord>
    requires forall p | p in paths :: p in i.tree.files
  {
    seq(|paths|, k requires 0 <= k < |paths| => RecordAt(pf, i, py, fe, paths[k]))
  }

  method AssembleRecords(pf: Platform, i: Inputs, run: Run, ghost py: set<Path>, ghost fe: set<Path>) returns (records: seq<FileRecord>)
    requires run.t == i.tree && run.runtimePaths <= i.tree.files.Keys
    requires forall p :: RolesOf(run.roles, p) == RolesAt(i, py, fe, p)
    requires OwnersAre(i.tree, Seeding(i), run.owners)
    ensures forall p | p in SortText(run.runtimePaths) :: p in i.tree.files
    ensures records == RecordsAt(pf, i, py, fe, SortText(run.runtimePaths))
  {
    hide SortText, RolesAt, SeedOwners, Seeding, RolesOf;
    var paths := SortText(run.runtimePaths);
    assert forall p | p in paths :: p in Elements(paths);
    records := [];
    for k := 0 to |paths|
      invariant forall p | p in paths[..k] :: p in i.tree.files
      invariant records == RecordsAt(pf, i, py, fe, paths[..k])
    {
      var p := paths[k];
      assert p in Elements(paths) && paths[..k + 1] == paths[..k] + [p];
      records := records + [FileRecord(p, Sha(pf, i.tree.files[p].data), |i.tree.files[p].data|,
                                       SortText(RolesOf(run.roles, p)), SortText(RolesOf(run.owners, p)))];
    }
    assert paths[..|paths|] == paths;
  }

  // ------------------------------------------------------------------ documents

  function RuntimeItem(path: string, sha256: string, size: int): Json {
    Obj(map["path" := Str(path), "sha256" := Str(sha256), "size" := Num(size)])
  }

  function RuntimeMaterial(records: seq<FileRecord>): Json {
    Arr(seq(|records|, k requires 0 <= k < |records| => RuntimeItem(records[k].path, records[k].sha256, records[k].size)))
  }

  function FileFields(r: FileRecord): Dict {
    map["id" := Str("file:" + r.path), "type" := Str("file"), "path" := Str(r.path), "sha256" := Str(r.sha256),
        "roles" := Texts(r.roles), "registryModules" := Texts(r.modules)]
  }

  function FileNode(r: FileRecord): Json {
    Obj(FileFields(r))
  }

  function FileNodesOf(records: seq<FileRecord>): seq<Json> {
    seq(|records|, k requires 0 <= k < |records| => FileNode(records[k]))
  }

  function ModuleNode(id: string): Json {
    Obj(map["id" := Str("registry:" + id), "type" := Str("registry_module"), "moduleId" := Str(id)])
  }

  function ModuleNodesOf(ids: seq<string>): seq<Json> {
    seq(|ids|, k requires 0 <= k < |ids| => ModuleNode(ids[k]))
  }

  function NodeId(node: Json): string {
    if node.Obj? then Text(Get(node.fields, "id")) else ""
  }

  function EdgeJson(e: Edge): Json {
    Obj(map["from" := Str(e.source), "to" := Str(e.target), "type" := Str(e.kind)])
  }

  function EdgesJson(edges: seq<Edge>): seq<Json> {
    seq(|edges|, k requires 0 <= k < |edges| => EdgeJson(edges[k]))
  }

  /** The registry snapshot's entry of a required module. */
  function SnapshotModule(t: Tree, id: string, decl: ModuleDecl): Json
    requires decl.ModuleDecl?
  {
    var runner := SplitEntry(TextOrEmpty(decl.rawRunner));
    var file := if runner.Some? then ModuleToPath(t, runner.value.0) else None;
    Obj(map["moduleId" := Str(id), "fieldIds" := Texts(SortText(decl.fieldIds)), "schemaIds" := Texts(SortText(decl.schemaIds)),
            "implementationPaths" := Texts(SortText(decl.paths)), "runner" := decl.rawRunner] +
        if file.Some? then map["runnerPath" := Str(file.value)] else map[])
  }

  function SnapshotModules(i: Inputs): Dict {
    map id | id in i.scope.requiredModules && id in i.scope.modules && i.scope.modules[id].ModuleDecl?
      :: SnapshotModule(i.tree, id, i.scope.modules[id])
  }

  function Chosen(d: Dict, keys: set<string>): Dict {
    map k | k in keys :: Get(d, k)
  }

  /** The governance fields that every document repeats. */
  function Governed(g: Governance): Dict {
    Chosen(g.document, {"productBoundaryHash", "externalInterfaceRegistryHash", "enabledInterfaceCount", "disabledInterfaceCount"}) +
    map["interfaceGovernanceHash" := Get(g.document, "governanceHash")]
  }

  function GraphNodes(i: Inputs, records: seq<FileRecord>, g: Governance): seq<Json> {
    SortBy(FileNodesOf(records) + ModuleNodesOf(SortText(SnapshotModules(i).Keys)) + g.nodes, NodeId)
  }

  function GraphMaterial(nodes: seq<Json>, edges: set<Edge>): Dict {
    map["nodes" := Arr(nodes), "edges" := Arr(EdgesJson(SortEdges(edges)))]
  }

  function GraphDocument(pf: Platform, i: Inputs, material: Dict): Dict {
    map["schema" := Str("competition.hash_lineage_graph.v1"), "compilerSchema" := Str("competition.lineage.compiler.v1"),
        "sourceCommit" := Str(i.commit), "sourceIdentityHash" := Str(HashOf(pf, Obj(i.identity))),
        "registryRootHash" := Str(i.scope.actualRegistryHash)] +
    material + map["graphHash" := Str(HashOf(pf, Obj(material)))]
  }

  function EntriesJson(entries: seq<AppEntrypoint>): Json {
    Arr(seq(|entries|, k requires 0 <= k < |entries| =>
      Obj(map["entrypoint" := Str(entries[k].entrypoint), "path" := Str(entries[k].path)])))
  }

  function Warnings(i: Inputs, g: Governance): set<string> {
    Elements(g.warnings) +
    if ShadowsOf(i) != [] && !i.scope.failOnShadow then {i.message(LineageCompiler.ShadowEntrypoints(Names(ShadowsOf(i))))} else {}
  }

  function ReportContext(pf: Platform, i: Inputs, records: seq<FileRecord>, findings: set<Finding>, g: Governance): Dict {
    map["schema" := Str("competition.lineage_verification.v1"), "sourceIdentityHash" := Str(HashOf(pf, Obj(i.identity))),
        "registryRootHash" := Str(i.scope.actualRegistryHash), "runtimeFileCount" := Num(|records|),
        "registryModuleCount" := Num(|SnapshotModules(i)|), "candidateEntrypoints" := EntriesJson(i.tree.appEntrypoints),
        "shadowEntrypoints" := EntriesJson(ShadowsOf(i)),
        "findings" := Texts(SortText(set f | f in findings :: i.message(f))), "warnings" := Texts(SortText(Warnings(i, g)))]
  }

  function ReportMaterial(pf: Platform, i: Inputs, records: seq<FileRecord>, findings: set<Finding>, g: Governance, graphHash: string): Dict {
    Governed(g) + ReportContext(pf, i, records, findings, g) + ReportCore(pf, i, records, graphHash)
  }

  function ReportCore(pf: Platform, i: Inputs, records: seq<FileRecord>, graphHash: string): Dict {
    map["sourceCommit" := Str(i.commit), "runtimeHash" := Str(HashOf(pf, RuntimeMaterial(records))), "graphHash" := Str(graphHash)]
  }

  function ReportSignature(pf: Platform, material: Dict, findings: set<Finding>): Dict {
    map["verified" := Bool(findings == {}), "verificationHash" := Str(HashOf(pf, Obj(material)))]
  }

  function VerificationReport(pf: Platform, material: Dict, findings: set<Finding>): Dict {
    material + ReportSignature(pf, material, findings)
  }

  function SnapshotMaterial(pf: Platform, i: Inputs, records: seq<FileRecord>, g: Governance): Dict {
    Governed(g) +
    map["schema" := Str("competition.registry_snapshot.v1"), "compilerSchema" := Str("competition.lineage.compiler.v1"),
        "sourceCommit" := Str(i.commit), "sourceIdentityHash" := Str(HashOf(pf, Obj(i.identity))),
        "registryProjectionPath" := Str(i.scope.registryPath), "registryRootHash" := Str(i.scope.actualRegistryHash),
        "registryReleaseVersion" := Get(i.registry, "releaseVersion"), "productionEntrypoints" := Texts(i.scope.entrypoints),
        "requiredModules" := Texts(i.scope.requiredModules), "runtimeFileCount" := Num(|records|),
        "runtimeHash" := Str(HashOf(pf, RuntimeMaterial(records)))] +
    map["registryVersion" := Get(i.registry, "version"), "modules" := Obj(SnapshotModules(i))]
  }

  function RegistrySnapshot(pf: Platform, material: Dict): Dict {
    material + map["snapshotHash" := Str(HashOf(pf, Obj(material)))]
  }

  function EvidenceContext(pf: Platform, i: Inputs, snapshot: Dict, report: Dict): Dict {
    map["schema" := Str("competition.lineage_evidence_manifest.v1"), "sourceIdentityHash" := Str(HashOf(pf, Obj(i.identity))),
        "runtimeHash" := Get(report, "runtimeHash"), "lineageGraphHash" := Get(report, "graphHash"),
        "verificationHash" := Get(report, "verificationHash"), "registrySnapshotHash" := Get(snapshot, "snapshotHash")]
  }

  function EvidenceMaterial(pf: Platform, i: Inputs, snapshot: Dict, report: Dict, findings: set<Finding>, g: Governance): Dict {
    Governed(g) + EvidenceContext(pf, i, snapshot, report) + EvidenceCore(i, findings)
  }

  function EvidenceCore(i: Inputs, findings: set<Finding>): Dict {
    map["sourceCommit" := Str(i.commit), "verified" := Bool(findings == {}),
        "entrypoint" := if |i.scope.entrypoints| == 1 then Str(i.scope.entrypoints[0]) else Null]
  }

  function EvidenceManifest(pf: Platform, material: Dict): Dict {
    material + map["manifestHash" := Str(HashOf(pf, Obj(material)))]
  }

  /** The part of `compile_lineage` after the file records. */
  function Assembled(pf: Platform, i: Inputs, records: seq<FileRecord>, edges: set<Edge>, findings: set<Finding>, g: Governance): Compiled {
    var graph := GraphDocument(pf, i, GraphMaterial(GraphNodes(i, records, g), edges));
    var report := VerificationReport(pf, ReportMaterial(pf, i, records, findings, g, Text(Get(graph, "graphHash"))), findings);
    var snapshot := RegistrySnapshot(pf, SnapshotMaterial(pf, i, records, g));
    Compiled(records, findings, snapshot, graph, report,
             EvidenceManifest(pf, EvidenceMaterial(pf, i, snapshot, report, findings, g)), g.document)
  }

  /** The lineage of a tree, given its two closures. */
  ghost predicate IsLineage(pf: Platform, i: Inputs, py: set<Path>, fe: set<Path>, c: Compiled) {
    && AreClosures(i, py, fe)
    && var paths := RuntimePaths(i, py, fe);
    && paths <= i.tree.files.Keys && (forall p | p in SortText(paths) :: p in i.tree.files)
    && c == Assembled(pf, i, RecordsAt(pf, i, py, fe, SortText(paths)), AllEdges(i, py, fe), AllFindings(i, py, fe), i.governance(paths))
  }

  lemma RolesAdd(i: Inputs, py: set<Path>, fe: set<Path>, seeds: map<Path, set<string>>,
                 middle: map<Path, set<string>>, last: map<Path, set<string>>)
    requires RolesAre(i.tree, Seeding(i), seeds)
    requires RoleGiven(seeds, middle, py, "python_import_closure") && RoleGiven(middle, last, fe, "frontend_reference_closure")
    ensures forall p :: RolesOf(last, p) == RolesAt(i, py, fe, p)
  {
    hide RolesOf, SeedRoles, Seeding;
  }

  /** Seeds and both closures: everything up to `add_package_initializers`. */
  method Discover(i: Inputs) returns (run: Run, ghost py: set<Path>, ghost fe: set<Path>)
    ensures fresh(run) && run.t == i.tree && AreClosures(i, py, fe)
    ensures run.runtimePaths == RuntimePaths(i, py, fe)
    ensures run.edges == SeedEdges(i.tree, Seeding(i)) + FileEdges(Imports(i.tree), py, "IMPORTS") + FileEdges(References(i.tree), fe, "REFERENCES")
    ensures Elements(run.findings) == SeedFindings(i.tree, Seeding(i)) + ImportProblems(i.tree, py)
    ensures OwnersAre(i.tree, Seeding(i), run.owners)
    ensures forall p :: RolesOf(run.roles, p) == RolesAt(i, py, fe, p)
  {
    hide Actions, SeedEdges, SeedFindings, ImportProblems, FileEdges, Imports, References, IsReach, RoleGiven, RolesAre, OwnersAre,
         RolesAt, RolesOf, WithInitializers;
    run := new Run(i.tree);
    run.CollectSeeds(Actions(i.tree, i.scope));
    ghost var seeded := run.roles;
    QueuedExist(run.pythonQueue, i.tree, Seeding(i), PythonQueue);
    QueuedExist(run.frontendQueue, i.tree, Seeding(i), FrontendQueue);
    py := run.DrainPython();
    ghost var middle := run.roles;
    fe := run.DrainFrontend();
    RolesAdd(i, py, fe, seeded, middle, run.roles);
    run.AddPackageInitializers();
  }

  lemma QueuedExist(queue: seq<Path>, t: Tree, actions: seq<Action>, q: Queue)
    requires Elements(queue) == SeedsFor(t, actions, q)
    ensures forall p | p in queue :: p in t.files
  {
    forall p | p in queue ensures p in t.files { assert p in Elements(queue); }
  }

  /** Governance problems, boundary checks, shadow entrypoints. */
  method Audit(i: Inputs, run: Run, g: Governance)
    modifies run`findings
    ensures Elements(run.findings) == Elements(old(run.findings)) + Reported(g.findings) +
              BoundarySet(i.scope, SortText(run.runtimePaths)) + ShadowFindings(i)
  {
    hide BoundarySet, SortText, Shadows, Names, Reported;
    var problems := seq(|g.findings|, k requires 0 <= k < |g.findings| => GovernanceProblem(g.findings[k]));
    ReportedAre(g.findings, problems);
    AppendElements(run.findings, problems);
    run.findings := run.findings + problems;
    run.CheckBoundary(i.scope);
    var shadows := ShadowsOf(i);
    if shadows != [] && i.scope.failOnShadow {
      ElementsAppend(run.findings, LineageCompiler.ShadowEntrypoints(Names(shadows)));
      run.findings := run.findings + [LineageCompiler.ShadowEntrypoints(Names(shadows))];
    }
  }

  /** `compile_lineage`: whatever the order in which the queues are drained, the result is the one
      lineage of the least closures. */
  method Compile(pf: Platform, i: Inputs) returns (c: Compiled)
    ensures exists py, fe :: IsLineage(pf, i, py, fe, c)
  {
    hide AreClosures, RuntimePaths, SeedEdges, SeedFindings, ImportProblems, FileEdges, Imports, References, OwnersAre,
         RolesAt, RolesOf, Assembled, RecordsAt, BoundarySet, SortText, Seeding, ShadowFindings, Reported;
    var run;
    ghost var py, fe;
    run, py, fe := Discover(i);
    ClosuresExist(i, py, fe);
    var g := i.governance(run.runtimePaths);
    Audit(i, run, g);
    var records := AssembleRecords(pf, i, run, py, fe);
    c := Assembled(pf, i, records, run.edges + g.edges, Elements(run.findings), g);
    assert Elements(run.findings) == AllFindings(i, py, fe);
    assert run.edges + g.edges == AllEdges(i, py, fe);
    assert IsLineage(pf, i, py, fe, c);
  }

  lemma ClosuresExist(i: Inputs, py: set<Path>, fe: set<Path>)
    requires AreClosures(i, py, fe)
    ensures RuntimePaths(i, py, fe) <= i.tree.files.Keys
  {
    hide IsReach, RuntimePaths;
    RuntimeExists(i, py, fe);
  }

  lemma ReportedAre(texts: seq<string>, problems: seq<Finding>)
    requires problems == seq(|texts|, k requires 0 <= k < |texts| => GovernanceProblem(texts[k]))
    ensures Elements(problems) == Reported(texts)
  {
    forall text | text in texts ensures GovernanceProblem(text) in problems {
      var k :| 0 <= k < |texts| && texts[k] == text;
      assert problems[k] == GovernanceProblem(text);
    }
  }

  lemma AppendElements<T>(a: seq<T>, b: seq<T>)
    ensures Elements(a + b) == Elements(a) + Elements(b)
  {
  }

  /** A tree and its settings have one lineage. */
  lemma LineageIsUnique(pf: Platform, i: Inputs, py: set<Path>, fe: set<Path>, c: Compiled, py': set<Path>, fe': set<Path>, c': Compiled)
    requires IsLineage(pf, i, py, fe, c) && IsLineage(pf, i, py', fe', c')
    ensures py == py' && fe == fe' && c == c'
  {
    ReachUnique(Imports(i.tree), SeedsFor(i.tree, Seeding(i), PythonQueue), py, py');
    ReachUnique(References(i.tree), SeedsFor(i.tree, Seeding(i), FrontendQueue), fe, fe');
    hide IsReach, Imports, References, Assembled, SeedsFor, RuntimePaths, Seeding, AllEdges, AllFindings;
  }

  // ------------------------------------------------------------------ write_outputs

  function PathsOf(records: seq<FileRecord>): seq<Path> {
    seq(|records|, k requires 0 <= k < |records| => records[k].path)
  }

  /** `value.removeprefix("sha256:")`. */
  function Bare(sha256: string): string {
    if "sha256:" <= sha256 then sha256[7..] else sha256
  }

  function DigestLines(records: seq<FileRecord>): seq<string> {
    seq(|records|, k requires 0 <= k < |records| => ShaText(Bare(records[k].sha256), records[k].path))
  }

  /** The files of the output directory, as `write_outputs` leaves them. */
  function Outputs(pf: Platform, identity: Dict, c: Compiled): map<string, Bytes> {
    map[
      "source-identity.json" := pf.render(Obj(identity)),
      "registry-snapshot.json" := pf.render(Obj(c.snapshot)),
      "lineage-graph.json" := pf.render(Obj(c.graph)),
      "verification-report.json" := pf.render(Obj(c.report)),
      "evidence-manifest.json" := pf.render(Obj(c.evidence)),
      "interface-governance.json" := pf.render(Obj(c.governance)),
      "runtime-files.txt" := pf.utf8(PrintLines(PathsOf(c.records))),
      "runtime-files.sha256" := pf.utf8(PrintLines(DigestLines(c.records)))]
  }
}
