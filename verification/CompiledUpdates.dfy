/** When admitted updates of compiled lineages compose: exactly which policy profiles let a chain of
    updates be skipped to its ends. */
module CompiledUpdates {
  import opened Sorting
  import opened TextOrder
  import opened Closure
  import opened PyText
  import opened Json
  import opened Platform
  import opened LineageGraph
  import opened LineageCompiler
  import opened LineageEvidence
  import opened UpdateGateTheorems
  import opened CompiledGate
  import opened CompiledPackage
  import opened CompiledEvidence
  import opened UpdateGate

  // ------------------------------------------------------------------ equal hashes

  /** Two lineages with one runtime hash and different runtimes. */
  ghost predicate RuntimesCollide(pf: Platform, l: Build, k: Build) {
    Collides(pf, pf.canon(RuntimeMaterial(l.c.records)), pf.canon(RuntimeMaterial(k.c.records)))
  }

  function MaterialOf(l: Build): Json {
    Obj(map["nodes" := Get(l.c.graph, "nodes"), "edges" := Get(l.c.graph, "edges")])
  }

  /** Two lineages with one graph hash and different graphs. */
  ghost predicate GraphsCollide(pf: Platform, l: Build, k: Build) {
    Collides(pf, pf.canon(MaterialOf(l)), pf.canon(MaterialOf(k)))
  }

  lemma RuntimeHashShown(pf: Platform, l: Build)
    requires Regular(pf, l)
    ensures Get(Shown(l).verification, "runtimeHash") == Str(HashOf(pf, RuntimeMaterial(l.c.records)))
    ensures PathsOf(l.c.records) == SortText(Runtime(l)) && Elements(PathsOf(l.c.records)) == Runtime(l)
    ensures Get(Shown(l).verification, "verified") == Bool(l.c.findings == {})
  {
    hide IsLineage, Tidy, RuntimePaths, RuntimeMaterial, HashOf, DigestLines, PathsOf;
    CompiledRecords(pf, l.i, l.py, l.fe, l.c);
  }

  lemma SameMaterialSamePaths(a: seq<FileRecord>, b: seq<FileRecord>)
    requires RuntimeMaterial(a) == RuntimeMaterial(b)
    ensures PathsOf(a) == PathsOf(b)
  {
    var x, y := RuntimeMaterial(a).items, RuntimeMaterial(b).items;
    assert |x| == |a| && |y| == |b|;
    forall k | 0 <= k < |a| ensures a[k].path == b[k].path {
      assert x[k] == RuntimeItem(a[k].path, a[k].sha256, a[k].size) && y[k] == RuntimeItem(b[k].path, b[k].sha256, b[k].size);
      assert x[k].fields["path"] == Str(a[k].path) && y[k].fields["path"] == Str(b[k].path);
    }
  }

  lemma SameRuntimeHash(pf: Platform, l: Build, k: Build)
    requires CanonIsInjective(pf) && Regular(pf, l) && Regular(pf, k)
    requires Get(Shown(l).verification, "runtimeHash") == Get(Shown(k).verification, "runtimeHash")
    ensures RuntimesCollide(pf, l, k) || Runtime(l) == Runtime(k)
  {
    hide Regular, RuntimeMaterial, HashOf, PathsOf, CanonIsInjective, Collides;
    RuntimeHashShown(pf, l);
    RuntimeHashShown(pf, k);
    HashSame(pf, RuntimeMaterial(l.c.records), RuntimeMaterial(k.c.records));
    if RuntimeMaterial(l.c.records) == RuntimeMaterial(k.c.records) { SameMaterialSamePaths(l.c.records, k.c.records); }
  }

  lemma GraphHashOfAssembled(pf: Platform, i: Inputs, records: seq<FileRecord>, edges: set<Edge>, findings: set<LineageCompiler.Finding>,
                             g: Governance)
    ensures var c := Assembled(pf, i, records, edges, findings, g);
            && Get(c.report, "graphHash") == Str(HashOf(pf, Obj(map["nodes" := Get(c.graph, "nodes"), "edges" := Get(c.graph, "edges")])))
  {
    hide RegistrySnapshot, SnapshotMaterial, EvidenceManifest, EvidenceMaterial, HashOf, GraphNodes, SortEdges, EdgesJson, Governed, ReportContext,
         RuntimeMaterial;
    var material := GraphMaterial(GraphNodes(i, records, g), edges);
    var graph := GraphDocument(pf, i, material);
    assert Get(graph, "nodes") == Get(material, "nodes") && Get(graph, "edges") == Get(material, "edges");
    assert material == map["nodes" := Get(material, "nodes"), "edges" := Get(material, "edges")];
    assert Get(graph, "graphHash") == Str(HashOf(pf, Obj(material)));
    var report := VerificationReport(pf, ReportMaterial(pf, i, records, findings, g, Text(Get(graph, "graphHash"))), findings);
    assert Get(report, "graphHash") == Get(ReportCore(pf, i, records, Text(Get(graph, "graphHash"))), "graphHash");
  }

  lemma GraphHashShown(pf: Platform, l: Build)
    requires Regular(pf, l)
    ensures Get(Shown(l).verification, "graphHash") == Str(HashOf(pf, MaterialOf(l)))
  {
    AssembledFrom(pf, l);
    hide Regular, AllEdges, AllFindings, Assembled, HashOf;
    GraphHashOfAssembled(pf, l.i, l.c.records, AllEdges(l.i, l.py, l.fe), AllFindings(l.i, l.py, l.fe), l.i.governance(Runtime(l)));
  }

  lemma SameNodesSameRuntime(pf: Platform, l: Build, k: Build)
    requires Regular(pf, l) && Regular(pf, k) && Get(l.c.graph, "nodes") == Get(k.c.graph, "nodes")
    ensures Runtime(l) == Runtime(k)
  {
    hide Regular, Runtime, FilesOf, NodesOf, FileFields, RecordAt;
    FilesShown(pf, l);
    FilesShown(pf, k);
    assert Files(Shown(l)) == Files(Shown(k));
  }

  lemma SameGraphHash(pf: Platform, l: Build, k: Build)
    requires CanonIsInjective(pf) && Regular(pf, l) && Regular(pf, k)
    requires Get(Shown(l).verification, "graphHash") == Get(Shown(k).verification, "graphHash")
    ensures GraphsCollide(pf, l, k) || Runtime(l) == Runtime(k)
  {
    hide Regular, HashOf, CanonIsInjective, Collides, Runtime;
    GraphHashShown(pf, l);
    GraphHashShown(pf, k);
    HashSame(pf, MaterialOf(l), MaterialOf(k));
    if MaterialOf(l) == MaterialOf(k) {
      assert MaterialOf(l).fields["nodes"] == MaterialOf(k).fields["nodes"];
      SameNodesSameRuntime(pf, l, k);
    }
  }

  // ------------------------------------------------------------------ which profiles are stable

  /** Some file path no prefix of the profile covers. */
  ghost predicate SomePathUncovered(p: Profile) {
    exists path :: path != "" && Stripped(path) && !PrefixAllowed(path, p.pathPrefixes)
  }

  /** A module name that a registry can use. */
  predicate ModuleName(m: string) {
    m != "" && Stripped(m)
  }

  /** Admission by ownership can be turned into a hole: some module is allowed, some path is not, and
      nothing that shows a change of ownership or membership is frozen. */
  ghost predicate OwnershipIsOpen(p: Profile) {
    && (exists m | m in p.registryModules :: ModuleName(m))
    && SomePathUncovered(p)
    && p.allowRuntimeMembershipChange && p.allowEdgeChanges && p.allowRegistryModuleChanges
    && !p.requireRuntimeHashStable && !p.requireGraphHashStable
  }

  /** The step rests on a hash that the profile wants stable and that does not tell the two sides apart. */
  ghost predicate RestsOnCollision(pf: Platform, p: Profile, l: Build, k: Build) {
    (p.requireRuntimeHashStable && RuntimesCollide(pf, l, k)) || (p.requireGraphHashStable && GraphsCollide(pf, l, k))
  }

  /** Under the profile, a chain of two admitted updates of compiled lineages is an admitted update. */
  ghost predicate ComposesAlways(pf: Platform, p: Profile) {
    forall l: Build, k: Build, j: Build
      | Regular(pf, l) && Regular(pf, k) && Regular(pf, j) && Admitted(Shown(l), Shown(k), p) && Admitted(Shown(k), Shown(j), p)
      :: Admitted(Shown(l), Shown(j), p) || RestsOnCollision(pf, p, l, k) || RestsOnCollision(pf, p, k, j)
  }

  // ------------------------------------------------------------------ stable profiles compose

  /** A file's verdict depends on its owners only, unless its path is covered. */
  lemma VerdictOf(pf: Platform, l: Build, p: Profile, path: Path)
    requires Regular(pf, l) && path in Runtime(l)
    ensures path in Files(Shown(l)) && Files(Shown(l))[path] != map[] && path != "" && Stripped(path)
    ensures FileChangeAllowed(path, Files(Shown(l))[path], p) <==> PrefixAllowed(path, p.pathPrefixes) || OwnersIn(l, path) * p.registryModules != {}
  {
    hide IsLineage, RuntimePaths, Files, Shaped, SeedOwners, PrefixAllowed, RolesAt, Owners;
    FilesShown(pf, l);
    OwnersShown(pf, l, path);
    FileIsNotEmpty(Shown(l), path);
  }

  /** The verdict over a step. */
  lemma StepVerdict(pf: Platform, l: Build, k: Build, p: Profile, path: Path)
    requires Regular(pf, l) && Regular(pf, k)
    ensures FileChangeAllowed(path, Latest(Files(Shown(l)), Files(Shown(k)), path), p) <==>
              || PrefixAllowed(path, p.pathPrefixes)
              || (path in Runtime(k) && OwnersIn(k, path) * p.registryModules != {})
              || (path !in Runtime(k) && path in Runtime(l) && OwnersIn(l, path) * p.registryModules != {})
  {
    FilesShown(pf, l);
    FilesShown(pf, k);
    hide Regular, Runtime, Files, Shaped, OwnersIn, PrefixAllowed, FileChangeAllowed, FileFields, RecordAt;
    if path in Runtime(k) {
      VerdictOf(pf, k, p, path);
    } else if path in Runtime(l) {
      VerdictOf(pf, l, p, path);
    } else {
      NobodysFile(path, p);
    }
  }

  lemma NobodysFile(path: Path, p: Profile)
    ensures FileChangeAllowed(path, map[], p) <==> PrefixAllowed(path, p.pathPrefixes)
  {
  }

  /** No edge changed: whoever owns a file on one side owns it on every side. */
  lemma FrozenEdgesCarry(pf: Platform, l: Build, k: Build, m: string, path: Path)
    requires Regular(pf, l) && Regular(pf, k) && Edges(Shown(l)) == Edges(Shown(k)) && m in OwnersIn(l, path)
    ensures m in OwnersIn(k, path) && path in Runtime(k)
  {
    hide Regular, Edges, SeedOwners, Linked, Runtime;
    var kind := "RUNS";
    OwnerEdge(pf, l, m, path, kind);
    OwnersAreLinked(pf, l, m, path);
    OwnersAreLinked(pf, k, m, path);
    OwnedIsRuntime(k, path);
  }

  lemma SameEdgesCarry(pf: Platform, l: Build, k: Build, j: Build, p: Profile, path: Path)
    requires Regular(pf, l) && Regular(pf, k) && Regular(pf, j)
    requires Edges(Shown(l)) == Edges(Shown(k)) == Edges(Shown(j))
    ensures VerdictCarries(Shown(l), Shown(k), Shown(j), p, path)
  {
    hide Regular, Edges, Files, OwnersIn, Runtime, PrefixAllowed, FileChangeAllowed, Latest, Shown;
    StepVerdict(pf, l, k, p, path);
    StepVerdict(pf, k, j, p, path);
    StepVerdict(pf, l, j, p, path);
    forall m, x: Build, y: Build | x in {l, k, j} && y in {l, k, j} && m in OwnersIn(x, path)
      ensures m in OwnersIn(y, path) && path in Runtime(y)
    {
      FrozenEdgesCarry(pf, x, y, m, path);
    }
  }

  /** No module record changed: wherever the file is present, it has the same owners. */
  lemma FrozenModulesCarry(pf: Platform, l: Build, k: Build, m: string, path: Path)
    requires Regular(pf, l) && Regular(pf, k) && Modules(Shown(l)) == Modules(Shown(k))
    requires m in OwnersIn(l, path) && path in k.i.tree.files
    ensures m in OwnersIn(k, path) && path in Runtime(k)
  {
    ModulesShown(pf, l);
    ModulesShown(pf, k);
    hide Regular, Modules, Runtime, Seeding, SnapshotModules, RecordNames;
    OwnedIsRuntime(l, path);
    OwnersAreRecorded(l.i, path, m);
    OwnersAreRecorded(k.i, path, m);
    OwnedIsRuntime(k, path);
  }

  /** A file about which the composition asks exists at one of its ends. */
  lemma AskedExists(pf: Platform, l: Build, j: Build, path: Path)
    requires Regular(pf, l) && Regular(pf, j) && Asked(Shown(l), Shown(j), path)
    ensures path in l.i.tree.files || path in j.i.tree.files
  {
    hide Regular, Files, Edges, Differing;
    if path in Differing(Files(Shown(l)), Files(Shown(j))) {
      DifferingExists(pf, l, j, path);
    } else {
      var e :| e in ChangedEdges(Shown(l), Shown(j)) && (e.source == "file:" + path || e.target == "file:" + path);
      assert ("file:" + path)[5..] == path;
      if e in Edges(Shown(l)) { EndsExist(pf, l, e); } else { EndsExist(pf, j, e); }
    }
  }

  lemma DifferingExists(pf: Platform, l: Build, j: Build, path: Path)
    requires Regular(pf, l) && Regular(pf, j) && path in Differing(Files(Shown(l)), Files(Shown(j)))
    ensures path in l.i.tree.files || path in j.i.tree.files
  {
    hide Regular, Runtime, Files, Shaped, FileFields, RecordAt, Normalized;
    FilesShown(pf, l);
    FilesShown(pf, j);
    RuntimeIsThere(pf, l);
    RuntimeIsThere(pf, j);
  }

  lemma SameModulesCarry(pf: Platform, l: Build, k: Build, j: Build, p: Profile, path: Path)
    requires Regular(pf, l) && Regular(pf, k) && Regular(pf, j)
    requires Modules(Shown(l)) == Modules(Shown(k)) == Modules(Shown(j))
    requires path in l.i.tree.files || path in j.i.tree.files
    ensures VerdictCarries(Shown(l), Shown(k), Shown(j), p, path)
  {
    hide Regular, Modules, Files, OwnersIn, PrefixAllowed, FileChangeAllowed, Latest, Shown;
    StepVerdict(pf, l, k, p, path);
    StepVerdict(pf, k, j, p, path);
    StepVerdict(pf, l, j, p, path);
    RuntimeIsThere(pf, l);
    RuntimeIsThere(pf, k);
    RuntimeIsThere(pf, j);
    hide Runtime;
    forall m, x: Build, y: Build | x in {l, k, j} && y in {l, k, j} && m in OwnersIn(x, path) && path in y.i.tree.files
      ensures m in OwnersIn(y, path) && path in Runtime(y)
    {
      FrozenModulesCarry(pf, x, y, m, path);
    }
  }

  lemma RuntimeIsThere(pf: Platform, l: Build)
    requires Regular(pf, l)
    ensures Runtime(l) <= l.i.tree.files.Keys
  {
    hide RuntimePaths, AreClosures, Assembled, Tidy;
  }

  lemma SameModules(a: Evidence, b: Evidence)
    requires ChangedModules(a, b) == {}
    requires forall m | m in Modules(a) :: Modules(a)[m] != Null
    requires forall m | m in Modules(b) :: Modules(b)[m] != Null
    ensures Modules(a) == Modules(b)
  {
    hide Modules;
    var x, y := Modules(a), Modules(b);
    forall m | m in x.Keys + y.Keys ensures m in x && m in y && x[m] == y[m] {
      assert m !in ChangedModules(a, b);
    }
  }

  lemma ModulesAreRecords(i: Inputs)
    ensures forall m | m in SnapshotModules(i) :: SnapshotModules(i)[m] != Null
  {
  }

  lemma FrozenModules(pf: Platform, l: Build, k: Build)
    requires Regular(pf, l) && Regular(pf, k) && ChangedModules(Shown(l), Shown(k)) == {}
    ensures Modules(Shown(l)) == Modules(Shown(k))
  {
    hide Regular, Shown, Modules, SnapshotModules, ChangedModules;
    ModulesShown(pf, l);
    ModulesShown(pf, k);
    ModulesAreRecords(l.i);
    ModulesAreRecords(k.i);
    SameModules(Shown(l), Shown(k));
  }

  lemma FrozenEdges(a: Evidence, b: Evidence, p: Profile)
    requires EdgesAdmitted(a, b, p) && !p.allowEdgeChanges
    ensures Edges(a) == Edges(b)
  {
    hide Edges;
    assert ChangedEdges(a, b) == {};
  }

  /** A profile that fixes membership, directly or by a hash, keeps the same files. */
  lemma FrozenMembership(pf: Platform, l: Build, k: Build, p: Profile)
    requires CanonIsInjective(pf) && Regular(pf, l) && Regular(pf, k) && Admitted(Shown(l), Shown(k), p)
    requires !p.allowRuntimeMembershipChange || p.requireRuntimeHashStable || p.requireGraphHashStable
    ensures RestsOnCollision(pf, p, l, k) || Files(Shown(l)).Keys == Files(Shown(k)).Keys
  {
    hide Regular, CanonIsInjective, Runtime, RuntimesCollide, GraphsCollide, Files, Shaped, FileFields, RecordAt, EdgesAdmitted, NodesAdmitted, Shown;
    FilesShown(pf, l);
    FilesShown(pf, k);
    if p.allowRuntimeMembershipChange {
      if p.requireRuntimeHashStable { SameRuntimeHash(pf, l, k); } else { SameGraphHash(pf, l, k); }
    }
  }

  lemma VerdictsCarry(pf: Platform, l: Build, k: Build, j: Build, p: Profile, path: Path)
    requires CanonIsInjective(pf) && Regular(pf, l) && Regular(pf, k) && Regular(pf, j)
    requires Admitted(Shown(l), Shown(k), p) && Admitted(Shown(k), Shown(j), p)
    requires !OwnershipIsOpen(p) && Asked(Shown(l), Shown(j), path)
    ensures VerdictCarries(Shown(l), Shown(k), Shown(j), p, path) || RestsOnCollision(pf, p, l, k) || RestsOnCollision(pf, p, k, j)
  {
    hide Regular, VerdictCarries, CanonIsInjective, RestsOnCollision, Asked, Files, Edges, Modules, FilesAdmitted, NodesAdmitted;
    if !p.allowRuntimeMembershipChange || p.requireRuntimeHashStable || p.requireGraphHashStable {
      FrozenMembership(pf, l, k, p);
      FrozenMembership(pf, k, j, p);
      FilesShown(pf, l);
      FilesShown(pf, k);
      FilesShown(pf, j);
      if !RestsOnCollision(pf, p, l, k) && !RestsOnCollision(pf, p, k, j) { SameFilesCarry(Shown(l), Shown(k), Shown(j), p, path); }
    } else if !p.allowEdgeChanges {
      FrozenEdges(Shown(l), Shown(k), p);
      FrozenEdges(Shown(k), Shown(j), p);
      SameEdgesCarry(pf, l, k, j, p, path);
    } else if !p.allowRegistryModuleChanges {
      FrozenModules(pf, l, k);
      FrozenModules(pf, k, j);
      AskedExists(pf, l, j, path);
      SameModulesCarry(pf, l, k, j, p, path);
    } else {
      NothingToOwn(pf, l, k, j, p, path);
    }
  }

  /** No module that a registry can use is allowed, or every path is covered. */
  lemma NothingToOwn(pf: Platform, l: Build, k: Build, j: Build, p: Profile, path: Path)
    requires Regular(pf, l) && Regular(pf, k) && Regular(pf, j)
    requires (forall m | m in p.registryModules :: !ModuleName(m)) || !SomePathUncovered(p)
    ensures VerdictCarries(Shown(l), Shown(k), Shown(j), p, path)
  {
    hide Regular, Runtime, Files, OwnersIn, PrefixAllowed, FileChangeAllowed, Latest, Shown;
    StepVerdict(pf, l, k, p, path);
    StepVerdict(pf, k, j, p, path);
    StepVerdict(pf, l, j, p, path);
    forall x: Build | x in {l, k, j} && path in Runtime(x) && !PrefixAllowed(path, p.pathPrefixes)
      ensures OwnersIn(x, path) * p.registryModules == {}
    {
      VerdictOf(pf, x, p, path);
      assert SomePathUncovered(p);
      forall m | m in OwnersIn(x, path) ensures ModuleName(m) { OwnerEdge(pf, x, m, path, "RUNS"); }
    }
  }

  /** Every profile under which ownership is not open composes. */
  lemma CompiledUpdatesCompose(pf: Platform, l: Build, k: Build, j: Build, p: Profile)
    requires CanonIsInjective(pf) && Regular(pf, l) && Regular(pf, k) && Regular(pf, j) && !OwnershipIsOpen(p)
    requires Admitted(Shown(l), Shown(k), p) && Admitted(Shown(k), Shown(j), p)
    ensures Admitted(Shown(l), Shown(j), p) || RestsOnCollision(pf, p, l, k) || RestsOnCollision(pf, p, k, j)
  {
    hide Regular, VerdictCarries, CanonIsInjective, RestsOnCollision, Asked, Files, Admitted, OwnershipIsOpen, FileFields, RecordAt, Runtime, Shown;
    if !RestsOnCollision(pf, p, l, k) && !RestsOnCollision(pf, p, k, j) {
      forall path | Asked(Shown(l), Shown(j), path) ensures VerdictCarries(Shown(l), Shown(k), Shown(j), p, path) {
        VerdictsCarry(pf, l, k, j, p, path);
      }
      FilesShown(pf, l);
      FilesShown(pf, k);
      FilesShown(pf, j);
      UpdatesCompose(Shown(l), Shown(k), Shown(j), p);
    }
  }

  // ------------------------------------------------------------------ an open profile does not compose

  const ENTRY := "e:s"

  /** A tree with one application file and, where `there`, one more file that a seed names. The one
      module runs the application; where `owned`, it declares the other file as its own. */
  function Planted(path: Path, app: Path, m: string, there: bool, owned: bool): Inputs {
    Inputs(
      Tree(if there then map[app := FileEntry([], false), path := FileEntry([], false)] else map[app := FileEntry([], false)],
           _ => app, _ => app, _ => [], _ => [], _ => [], _ => {"s"}, _ => [], []),
      Scope("", [], [], {}, [ENTRY], if there then [path] else [], [], [], [m],
            map[m := ModuleDecl(if owned then {path} else {}, Str(ENTRY), {}, {})], "", "", true),
      map[], map[], "", _ => Governance([], [], {}, [], map[]), _ => "")
  }

  /** A path for the application file. */
  function OtherThan(path: Path): Path {
    if path == "app.py" then "main.py" else "app.py"
  }

  function BuildOf(pf: Platform, i: Inputs): Build
    requires i.tree.files.Keys == Seeds(i.tree, Seeding(i))
  {
    var py, fe := SeedsFor(i.tree, Seeding(i), PythonQueue), SeedsFor(i.tree, Seeding(i), FrontendQueue);
    var paths := RuntimePaths(i, py, fe);
    assert paths <= i.tree.files.Keys by { RuntimeExists(i, py, fe); }
    assert forall p | p in SortText(paths) :: p in i.tree.files by { assert forall p | p in SortText(paths) :: p in Elements(SortText(paths)); }
    Build(i, py, fe, Assembled(pf, i, RecordsAt(pf, i, py, fe, SortText(paths)), AllEdges(i, py, fe), AllFindings(i, py, fe), i.governance(paths)))
  }

  /** The actions that the planted inputs come to. */
  function PlantedActions(path: Path, app: Path, m: string, there: bool, owned: bool): seq<Action> {
    [Add(app, "production_entrypoint", PythonQueue, "", "")] +
    (if there then [Add(path, "fixed_runtime_seed", QueueFor(path), "", "")] else []) +
    (if owned then [Add(path, "registry_implementation", QueueFor(path), m, "REGISTRY_OWNS")] else []) +
    [Add(app, "registry_runner", PythonQueue, m, "RUNS")]
  }

  lemma EntryOfPlanted(t: Tree, app: Path, role: string, owner: string, kind: string, bad: LineageCompiler.Finding)
    requires app in t.files && (forall name :: t.modulePath(name) == app) && t.symbols(app) == {"s"}
    ensures EntryActions(t, ENTRY, role, owner, kind, bad) == [Add(app, role, PythonQueue, owner, kind)]
  {
    assert ENTRY[0] == 'e' && ENTRY[1..][0] == ':';
    assert ColonAt(ENTRY[1..]) == 0 && ColonAt(ENTRY) == 1;
    assert ENTRY[..1] == "e" && ENTRY[2..] == "s";
  }

  lemma OneText(x: string)
    ensures SortText({x}) == [x] && SortText({}) == []
  {
    SortTextUnique([x], {x});
    SortTextUnique([], {});
  }

  lemma PlantedModule(t: Tree, scope: Scope, path: Path, app: Path, m: string, owned: bool)
    requires m in scope.modules && scope.modules[m] == ModuleDecl(if owned then {path} else {}, Str(ENTRY), {}, {})
    requires app in t.files && (forall name :: t.modulePath(name) == app) && t.symbols(app) == {"s"}
    ensures ModuleActions(t, scope, [m]) ==
              (if owned then [Add(path, "registry_implementation", QueueFor(path), m, "REGISTRY_OWNS")] else []) +
              [Add(app, "registry_runner", PythonQueue, m, "RUNS")]
  {
    hide QueueFor, SortText, EntryActions;
    EntryOfPlanted(t, app, "registry_runner", m, "RUNS", BadRunner(m));
    OneText(path);
    assert TextOrEmpty(Str(ENTRY)) == ENTRY != "";
    FirstModule(t, scope, [m]);
    assert [m][1..] == [] && ModuleActions(t, scope, []) == [];
  }

  lemma PlantedEntry(t: Tree, app: Path)
    requires app in t.files && (forall name :: t.modulePath(name) == app) && t.symbols(app) == {"s"}
    ensures EntrypointActions(t, [ENTRY]) == [Add(app, "production_entrypoint", PythonQueue, "", "")]
  {
    hide EntryActions;
    EntryOfPlanted(t, app, "production_entrypoint", "", "", BadEntrypoint(ENTRY));
    assert [ENTRY][1..] == [] && EntrypointActions(t, []) == [];
  }

  lemma SeedingIs(path: Path, app: Path, m: string, there: bool, owned: bool)
    requires app != path
    ensures Seeding(Planted(path, app, m, there, owned)) == PlantedActions(path, app, m, there, owned)
  {
    hide QueueFor, EntrypointActions, ModuleActions;
    var i := Planted(path, app, m, there, owned);
    PlantedEntry(i.tree, app);
    PlantedModule(i.tree, i.scope, path, app, m, owned);
    PlantedFile(path, there);
    hide FileActions;
    assert GlobActions(i.tree, []) == [] && RootActions([]) == [];
  }

  lemma PlantedFile(path: Path, there: bool)
    ensures FileActions(if there then [path] else []) == if there then [Add(path, "fixed_runtime_seed", QueueFor(path), "", "")] else []
  {
    hide QueueFor;
  }

  /** Exactly which actions these are. */
  lemma PlantedActionsAre(path: Path, app: Path, m: string, there: bool, owned: bool, a: Action)
    ensures a in PlantedActions(path, app, m, there, owned) <==>
              || a == Add(app, "production_entrypoint", PythonQueue, "", "") || a == Add(app, "registry_runner", PythonQueue, m, "RUNS")
              || (there && a == Add(path, "fixed_runtime_seed", QueueFor(path), "", ""))
              || (owned && a == Add(path, "registry_implementation", QueueFor(path), m, "REGISTRY_OWNS"))
  {
    hide QueueFor;
  }

  /** What the planted inputs seed. */
  lemma PlantedSeeds(path: Path, app: Path, m: string, there: bool, owned: bool)
    requires app != path && (owned ==> there)
    ensures var i := Planted(path, app, m, there, owned);
            && i.tree.files.Keys == Seeds(i.tree, Seeding(i)) == {app} + (if there then {path} else {})
            && SeedFindings(i.tree, Seeding(i)) == {}
            && SeedRoles(i.tree, Seeding(i), app) == {"production_entrypoint", "registry_runner"}
            && app in SeedsFor(i.tree, Seeding(i), PythonQueue) && app !in SeedsFor(i.tree, Seeding(i), FrontendQueue)
  {
    hide QueueFor, Seeding, PlantedActions;
    SeedingIs(path, app, m, there, owned);
    var i := Planted(path, app, m, there, owned);
    assert i.tree.files.Keys == {app} + (if there then {path} else {});
    forall a ensures a in Seeding(i) ==> a.Add? && a.path in i.tree.files { PlantedActionsAre(path, app, m, there, owned, a); }
    SeedsArePlanted(i.tree, Seeding(i), path, app, m, there, owned);
    RolesArePlanted(i.tree, Seeding(i), path, app, m, there, owned);
  }

  lemma SeedsArePlanted(t: Tree, actions: seq<Action>, path: Path, app: Path, m: string, there: bool, owned: bool)
    requires actions == PlantedActions(path, app, m, there, owned) && t.files.Keys == {app} + (if there then {path} else {})
    requires forall a | a in actions :: a.Add? && a.path in t.files
    ensures Seeds(t, actions) == t.files.Keys && SeedFindings(t, actions) == {}
  {
    hide QueueFor, PlantedActions;
    PlantedActionsAre(path, app, m, there, owned, Add(app, "production_entrypoint", PythonQueue, "", ""));
    PlantedActionsAre(path, app, m, there, owned, Add(path, "fixed_runtime_seed", QueueFor(path), "", ""));
    assert app in Seeds(t, actions) && (there ==> path in Seeds(t, actions));
  }

  lemma RolesArePlanted(t: Tree, actions: seq<Action>, path: Path, app: Path, m: string, there: bool, owned: bool)
    requires actions == PlantedActions(path, app, m, there, owned) && app in t.files && app != path
    ensures SeedRoles(t, actions, app) == {"production_entrypoint", "registry_runner"}
    ensures app in SeedsFor(t, actions, PythonQueue) && app !in SeedsFor(t, actions, FrontendQueue)
  {
    hide QueueFor, PlantedActions;
    var entry, runner := Add(app, "production_entrypoint", PythonQueue, "", ""), Add(app, "registry_runner", PythonQueue, m, "RUNS");
    PlantedActionsAre(path, app, m, there, owned, entry);
    PlantedActionsAre(path, app, m, there, owned, runner);
    forall a ensures a in actions && a.Add? && a.path == app ==> a == entry || a == runner { PlantedActionsAre(path, app, m, there, owned, a); }
    assert entry.role in SeedRoles(t, actions, app) && runner.role in SeedRoles(t, actions, app);
  }

  lemma NoSuccessors(next: Path -> set<Path>, seeds: set<Path>)
    requires forall p :: next(p) == {}
    ensures IsReach(next, seeds, seeds)
  {
  }

  lemma PlantedCloses(pf: Platform, path: Path, app: Path, m: string, there: bool, owned: bool)
    requires var i := Planted(path, app, m, there, owned); i.tree.files.Keys == Seeds(i.tree, Seeding(i))
    ensures var l := BuildOf(pf, Planted(path, app, m, there, owned));
            && AreClosures(l.i, l.py, l.fe) && Runtime(l) == l.i.tree.files.Keys
            && (forall p | p in SortText(Runtime(l)) :: p in l.i.tree.files)
            && l.c == Assembled(pf, l.i, RecordsAt(pf, l.i, l.py, l.fe, SortText(Runtime(l))), AllEdges(l.i, l.py, l.fe),
                                AllFindings(l.i, l.py, l.fe), l.i.governance(Runtime(l)))
  {
    hide Seeding, SortText, Assembled, RecordsAt, AllEdges, AllFindings, HasSuffix, IsReach;
    var i := Planted(path, app, m, there, owned);
    var l := BuildOf(pf, i);
    NoSuccessors(Imports(i.tree), l.py);
    NoSuccessors(References(i.tree), l.fe);
    RuntimeExists(i, l.py, l.fe);
    assert Seeds(i.tree, Seeding(i)) <= Runtime(l);
  }

  lemma PlantedIsTidy(path: Path, app: Path, m: string, there: bool, owned: bool)
    requires path != "" && Stripped(path) && app != "" && Stripped(app) && ModuleName(m)
    ensures var i := Planted(path, app, m, there, owned); Tidy(i, i.tree.files.Keys)
  {
    hide Stripped, SnapshotModule;
  }

  lemma PlantedIsLineage(pf: Platform, path: Path, app: Path, m: string, there: bool, owned: bool)
    requires path != "" && Stripped(path) && app != "" && Stripped(app) && ModuleName(m)
    requires var i := Planted(path, app, m, there, owned); i.tree.files.Keys == Seeds(i.tree, Seeding(i))
    ensures var l := BuildOf(pf, Planted(path, app, m, there, owned));
            Regular(pf, l) && Runtime(l) == l.i.tree.files.Keys
  {
    hide BuildOf, IsLineage, RuntimePaths, Tidy, Seeds, Seeding, Stripped, AreClosures, Assembled, AllEdges, AllFindings, RecordsAt, SortText;
    var i := Planted(path, app, m, there, owned);
    PlantedCloses(pf, path, app, m, there, owned);
    PlantedIsTidy(path, app, m, there, owned);
    BuildKeeps(pf, i);
    ClosedIsLineage(pf, BuildOf(pf, i));
  }

  lemma ClosedIsLineage(pf: Platform, l: Build)
    requires AreClosures(l.i, l.py, l.fe) && Runtime(l) == l.i.tree.files.Keys && forall p | p in SortText(Runtime(l)) :: p in l.i.tree.files
    requires l.c == Assembled(pf, l.i, RecordsAt(pf, l.i, l.py, l.fe, SortText(Runtime(l))), AllEdges(l.i, l.py, l.fe),
                              AllFindings(l.i, l.py, l.fe), l.i.governance(Runtime(l)))
    ensures IsLineage(pf, l.i, l.py, l.fe, l.c)
  {
    hide AreClosures, RuntimePaths, Assembled, AllEdges, AllFindings, RecordsAt, SortText;
  }

  lemma BuildKeeps(pf: Platform, i: Inputs)
    requires i.tree.files.Keys == Seeds(i.tree, Seeding(i))
    ensures BuildOf(pf, i).i == i
  {
  }

  lemma NoFindings(pf: Platform, path: Path, app: Path, m: string, there: bool, owned: bool)
    requires app != path && (owned ==> there)
    ensures var i := Planted(path, app, m, there, owned);
            forall py, fe :: AllFindings(i, py, fe) == {}
  {
    hide Seeding, SortText, RuntimePaths, NameOf;
    PlantedSeeds(path, app, m, there, owned);
  }

  /** The owners that the planted inputs give. */
  lemma PlantedOwners(path: Path, app: Path, m: string, there: bool, owned: bool)
    requires app != path && (owned ==> there) && ModuleName(m)
    ensures var i := Planted(path, app, m, there, owned);
            && SeedOwners(i.tree, Seeding(i), app) == {m}
            && SeedOwners(i.tree, Seeding(i), path) == if owned then {m} else {}
  {
    hide QueueFor, Seeding, Stripped, PlantedActions;
    SeedingIs(path, app, m, there, owned);
    var i := Planted(path, app, m, there, owned);
    var runner, owner := Add(app, "registry_runner", PythonQueue, m, "RUNS"), Add(path, "registry_implementation", QueueFor(path), m, "REGISTRY_OWNS");
    PlantedActionsAre(path, app, m, there, owned, runner);
    PlantedActionsAre(path, app, m, there, owned, owner);
    forall a ensures a in Seeding(i) && a.Add? && a.owner != "" ==> a == runner || (owned && a == owner) { PlantedActionsAre(path, app, m, there, owned, a); }
    assert runner.path in i.tree.files && (owned ==> owner.path in i.tree.files);
  }

  /** The application file's record, the same in every planted lineage. */
  function AppRecord(pf: Platform, app: Path, m: string): FileRecord {
    FileRecord(app, Sha(pf, []), 0, SortText({"production_entrypoint", "registry_runner", "python_import_closure"}), SortText({m}))
  }

  lemma PlantedRecord(pf: Platform, path: Path, app: Path, m: string, there: bool, owned: bool)
    requires app != path && (owned ==> there) && ModuleName(m)
    requires var i := Planted(path, app, m, there, owned); i.tree.files.Keys == Seeds(i.tree, Seeding(i))
    ensures var l := BuildOf(pf, Planted(path, app, m, there, owned));
            app in l.i.tree.files && RecordAt(pf, l.i, l.py, l.fe, app) == AppRecord(pf, app, m)
  {
    hide Seeding, SeedRoles, SeedOwners, SeedsFor, Sha, SortText, Stripped, Assembled, RecordsAt, AllEdges, AllFindings, RuntimePaths;
    PlantedSeeds(path, app, m, there, owned);
    PlantedOwners(path, app, m, there, owned);
    var l := BuildOf(pf, Planted(path, app, m, there, owned));
    assert RolesAt(l.i, l.py, l.fe, app) == {"production_entrypoint", "registry_runner", "python_import_closure"};
    assert l.i.tree.files[app] == FileEntry([], false);
  }

  lemma PlantedEdges(pf: Platform, path: Path, app: Path, m: string, there: bool, owned: bool, l: Build, e: Edge)
    requires app != path && (owned ==> there) && ModuleName(m)
    requires l.i == Planted(path, app, m, there, owned) && Regular(pf, l) && e in Edges(Shown(l))
    ensures e.source == "registry:" + m
  {
    hide Regular, Edges, Clean, Seeding, Stripped;
    EdgesShown(pf, l);
    var raw :| raw in AllEdges(l.i, l.py, l.fe) && e == Clean(raw) && Whole(e);
    assert raw in SeedEdges(l.i.tree, Seeding(l.i));
    var a :| a in Seeding(l.i) && a.Add? && a.path in l.i.tree.files && a.owner != "" &&
             raw == Edge("registry:" + a.owner, "file:" + a.path, a.kind);
    SeedsOwn(l.i, a.owner, a.path);
    assert a.owner in [m];
    assert a.owner in OwnersIn(l, a.path);
    OwnerEdge(pf, l, m, a.path, a.kind);
  }

  lemma NodeListed(pf: Platform, l: Build, id: string) returns (node: Json)
    requires Regular(pf, l) && id in Nodes(Shown(l))
    ensures node in GraphNodes(l.i, l.c.records, l.i.governance(Runtime(l))) && KeyOf(node) == id && node.Obj?
  {
    hide IsLineage, Tidy, RuntimePaths, GraphNodes, KeyOf, RecordsAt, SortText, NodesOf;
    NodeListOf(pf, l.i, l.py, l.fe, l.c);
    var items := GraphNodes(l.i, l.c.records, l.i.governance(Runtime(l)));
    NodesComeFrom(items);
    assert Nodes(Shown(l)) == NodesOf(items).entries;
    node :| node in items && KeyOf(node) == id && node.Obj? && node.fields == NodesOf(items).entries[id];
  }

  lemma RecordIsTidy(pf: Platform, l: Build, r: FileRecord)
    requires Regular(pf, l) && r in l.c.records
    ensures r.path != "" && Stripped(r.path)
  {
    hide AreClosures, RuntimePaths, Assembled, RecordAt, RecordsAt, SortText, Stripped, AllEdges, AllFindings, GraphNodes;
    NodeListOf(pf, l.i, l.py, l.fe, l.c);
    RecordsCover(pf, l.i, l.py, l.fe, Runtime(l), l.c.records);
  }

  lemma PlantedNodes(pf: Platform, path: Path, app: Path, m: string, there: bool, owned: bool, l: Build, id: string)
    requires l.i == Planted(path, app, m, there, owned) && Regular(pf, l) && id in Nodes(Shown(l)) && ModuleName(m)
    ensures "file:" <= id || id == "registry:" + m
  {
    hide Regular, Runtime, GraphNodes, KeyOf, FileNode, ModuleNode, SnapshotModule, Stripped;
    var node := NodeListed(pf, l, id);
    NodeKinds(l.i, l.c.records, l.i.governance(Runtime(l)), node);
    if r :| r in l.c.records && node == FileNode(r) {
      RecordIsTidy(pf, l, r);
      FileNodeKey(r);
    } else {
      var x :| x in SnapshotModules(l.i) && node == ModuleNode(x);
      ModuleNodeKey(x);
    }
  }

  /** The special hashes come from the registry's own field and from the governance document. */
  function SpecialOf(i: Inputs, g: Governance, f: string): Json {
    if f == "registryRootHash" then Str(i.scope.actualRegistryHash) else Get(Governed(g), f)
  }

  lemma SpecialsOfReport(pf: Platform, i: Inputs, records: seq<FileRecord>, findings: set<LineageCompiler.Finding>, g: Governance,
                         graphHash: string, f: string)
    requires f in SPECIAL_HASH_FIELDS
    ensures Get(VerificationReport(pf, ReportMaterial(pf, i, records, findings, g, graphHash), findings), f) == SpecialOf(i, g, f)
  {
    hide Governed, ReportContext, ReportCore, ReportSignature, Get;
    var context, core := ReportContext(pf, i, records, findings, g), ReportCore(pf, i, records, graphHash);
    var material := ReportMaterial(pf, i, records, findings, g, graphHash);
    var signature := ReportSignature(pf, material, findings);
    SpecialLayers(pf, i, records, findings, g, graphHash, material, f);
    GetMerged(material, signature, f);
    GetMerged(Governed(g) + context, core, f);
    GetMerged(Governed(g), context, f);
  }

  lemma SpecialLayers(pf: Platform, i: Inputs, records: seq<FileRecord>, findings: set<LineageCompiler.Finding>, g: Governance,
                      graphHash: string, material: Dict, f: string)
    requires f in SPECIAL_HASH_FIELDS
    ensures f !in ReportSignature(pf, material, findings) && f !in ReportCore(pf, i, records, graphHash)
    ensures var context := ReportContext(pf, i, records, findings, g);
            (f in context <==> f == "registryRootHash") && Get(context, "registryRootHash") == Str(i.scope.actualRegistryHash)
  {
    hide ReportSignature, ReportCore, ReportContext;
    SpecialNames();
    ReportKeys(pf, i, records, findings, g, graphHash, material);
  }

  const CONTEXT_KEYS := {"schema", "sourceIdentityHash", "registryRootHash", "runtimeFileCount", "registryModuleCount",
                         "candidateEntrypoints", "shadowEntrypoints", "findings", "warnings"}

  lemma ReportKeys(pf: Platform, i: Inputs, records: seq<FileRecord>, findings: set<LineageCompiler.Finding>, g: Governance,
                   graphHash: string, material: Dict)
    ensures ReportSignature(pf, material, findings).Keys == {"verified", "verificationHash"}
    ensures ReportCore(pf, i, records, graphHash).Keys == {"sourceCommit", "runtimeHash", "graphHash"}
    ensures ReportContext(pf, i, records, findings, g).Keys == CONTEXT_KEYS
    ensures Get(ReportContext(pf, i, records, findings, g), "registryRootHash") == Str(i.scope.actualRegistryHash)
  {
    hide HashOf, SnapshotModules, ShadowsOf, Warnings, SortText, RuntimeMaterial, EntriesJson, Texts;
    ContextKeys(Str("competition.lineage_verification.v1"), Str(HashOf(pf, Obj(i.identity))), Str(i.scope.actualRegistryHash), Num(|records|),
                Num(|SnapshotModules(i)|), EntriesJson(i.tree.appEntrypoints), EntriesJson(ShadowsOf(i)),
                Texts(SortText(set f | f in findings :: i.message(f))), Texts(SortText(Warnings(i, g))));
  }

  lemma ContextKeys(a: Json, b: Json, c: Json, d: Json, e: Json, f: Json, g: Json, h: Json, k: Json)
    ensures var m: Dict := map["schema" := a, "sourceIdentityHash" := b, "registryRootHash" := c, "runtimeFileCount" := d,
                               "registryModuleCount" := e, "candidateEntrypoints" := f, "shadowEntrypoints" := g, "findings" := h, "warnings" := k];
            m.Keys == CONTEXT_KEYS && Get(m, "registryRootHash") == c
  {
    assert |"runtimeFileCount"| == |"registryRootHash"| == 16 && "runtimeFileCount"[1] == 'u' && "registryRootHash"[1] == 'e';
  }

  lemma SpecialNames()
    ensures SPECIAL_HASH_FIELDS !! {"verified", "verificationHash"} && SPECIAL_HASH_FIELDS !! {"sourceCommit", "runtimeHash", "graphHash"}
    ensures SPECIAL_HASH_FIELDS * CONTEXT_KEYS == {"registryRootHash"}
  {
    LongNames("productBoundaryHash", 19);
    LongNames("externalInterfaceRegistryHash", 29);
    LongNames("interfaceGovernanceHash", 23);
    assert |"registryRootHash"| == 16 && |"verified"| == 8 && |"sourceCommit"| == 12 && |"runtimeHash"| == 11 && |"graphHash"| == 9;
    assert "verificationHash"[0] == 'v' && "registryRootHash"[0] == 'r';
  }

  /** Names as long as these are none of the report's own, but for two, which start otherwise. */
  lemma LongNames(f: string, n: nat)
    requires |f| == n && n in {19, 23, 29} && f[0] in {'p', 'i', 'e'}
    ensures f !in CONTEXT_KEYS && f !in {"verified", "verificationHash"} && f !in {"sourceCommit", "runtimeHash", "graphHash"}
  {
    assert |"schema"| == 6 && |"sourceIdentityHash"| == 18 && |"registryRootHash"| == 16 && |"runtimeFileCount"| == 16;
    assert "registryModuleCount"[0] == 'r' && |"candidateEntrypoints"| == 20 && |"shadowEntrypoints"| == 17;
    assert |"findings"| == 8 && |"warnings"| == 8 && |"verified"| == 8 && |"verificationHash"| == 16;
    assert |"sourceCommit"| == 12 && |"runtimeHash"| == 11 && |"graphHash"| == 9;
  }

  lemma SpecialsOfAssembled(pf: Platform, i: Inputs, records: seq<FileRecord>, edges: set<Edge>, findings: set<LineageCompiler.Finding>,
                            g: Governance, f: string)
    requires f in SPECIAL_HASH_FIELDS
    ensures Get(Assembled(pf, i, records, edges, findings, g).report, f) == SpecialOf(i, g, f)
  {
    hide SpecialOf, VerificationReport, ReportMaterial, RegistrySnapshot, SnapshotMaterial, EvidenceManifest, EvidenceMaterial, GraphDocument, GraphMaterial,
         GraphNodes;
    var graph := GraphDocument(pf, i, GraphMaterial(GraphNodes(i, records, g), edges));
    SpecialsOfReport(pf, i, records, findings, g, Text(Get(graph, "graphHash")), f);
  }

  lemma PlantedSpecials(pf: Platform, path: Path, app: Path, m: string, there: bool, owned: bool, l: Build)
    requires l.i == Planted(path, app, m, there, owned) && Regular(pf, l)
    ensures forall f | f in SPECIAL_HASH_FIELDS ::
              Get(Shown(l).verification, f) == if f == "registryRootHash" then Str("") else Get(Governed(Governance([], [], {}, [], map[])), f)
  {
    AssembledFrom(pf, l);
    hide Regular, AllEdges, AllFindings, Assembled, Governed;
    forall f | f in SPECIAL_HASH_FIELDS
      ensures Get(Shown(l).verification, f) == if f == "registryRootHash" then Str("") else Get(Governed(Governance([], [], {}, [], map[])), f)
    {
      SpecialsOfAssembled(pf, l.i, l.c.records, AllEdges(l.i, l.py, l.fe), AllFindings(l.i, l.py, l.fe), l.i.governance(Runtime(l)), f);
    }
  }

  /** What the gate sees of a planted lineage. */
  ghost predicate ShowsPlanted(pf: Platform, l: Build, path: Path, app: Path, m: string, there: bool, owned: bool) {
    var e := Shown(l);
    && Regular(pf, l) && Shaped(e) && Verified(e)
    && Files(e).Keys == {app} + (if there then {path} else {})
    && Files(e)[app] == FileFields(AppRecord(pf, app, m))
    && (there ==> Files(e)[path] != map[] && Owners(Files(e)[path]) == if owned then {m} else {})
    && (forall x | x in Edges(e) :: x.source == "registry:" + m)
    && (forall id | id in Nodes(e) :: "file:" <= id || id == "registry:" + m)
    && Modules(e).Keys == {m}
    && forall f | f in SPECIAL_HASH_FIELDS ::
         Get(e.verification, f) == if f == "registryRootHash" then Str("") else Get(Governed(Governance([], [], {}, [], map[])), f)
  }

  lemma PlantedFiles(pf: Platform, path: Path, app: Path, m: string, there: bool, owned: bool, l: Build)
    requires app != path && (owned ==> there) && ModuleName(m) && Regular(pf, l) && l.i == Planted(path, app, m, there, owned)
    requires Runtime(l) == {app} + (if there then {path} else {})
    requires app in l.i.tree.files && RecordAt(pf, l.i, l.py, l.fe, app) == AppRecord(pf, app, m)
    ensures var e := Shown(l);
            && Shaped(e) && Files(e).Keys == {app} + (if there then {path} else {})
            && Files(e)[app] == FileFields(AppRecord(pf, app, m))
            && (there ==> Files(e)[path] != map[] && Owners(Files(e)[path]) == if owned then {m} else {})
  {
    hide Regular, Runtime, Files, Shaped, RecordAt, FileFields, Owners, Planted, Seeding;
    FilesShown(pf, l);
    if there {
      OwnersShown(pf, l, path);
      PlantedOwners(path, app, m, there, owned);
      FileIsNotEmpty(Shown(l), path);
    }
  }

  lemma PlantedShows(pf: Platform, path: Path, app: Path, m: string, there: bool, owned: bool) returns (l: Build)
    requires app != path && (owned ==> there) && path != "" && Stripped(path) && app != "" && Stripped(app) && ModuleName(m)
    ensures ShowsPlanted(pf, l, path, app, m, there, owned)
  {
    hide ShowsPlanted, Regular, Runtime, Seeding, BuildOf, Seeds, ModuleName, Stripped, RecordAt, SeedRoles, SeedsFor, SeedFindings, Planted;
    PlantedSeeds(path, app, m, there, owned);
    l := BuildOf(pf, Planted(path, app, m, there, owned));
    BuildKeeps(pf, Planted(path, app, m, there, owned));
    PlantedIsLineage(pf, path, app, m, there, owned);
    PlantedRecord(pf, path, app, m, there, owned);
    BuildShows(pf, path, app, m, there, owned, l);
  }

  lemma BuildShows(pf: Platform, path: Path, app: Path, m: string, there: bool, owned: bool, l: Build)
    requires app != path && (owned ==> there) && ModuleName(m) && Regular(pf, l) && l.i == Planted(path, app, m, there, owned)
    requires Runtime(l) == {app} + (if there then {path} else {})
    requires app in l.i.tree.files && RecordAt(pf, l.i, l.py, l.fe, app) == AppRecord(pf, app, m)
    ensures ShowsPlanted(pf, l, path, app, m, there, owned)
  {
    hide Regular, Runtime, Files, Edges, Nodes, Modules, Verified, Shaped, FileFields, Owners, ModuleName, Governed, RecordAt, AppRecord,
         Planted, Shown;
    PlantedFiles(pf, path, app, m, there, owned, l);
    PlantedIsVerified(pf, path, app, m, there, owned, l);
    PlantedModules(pf, path, app, m, there, owned, l);
    PlantedSpecials(pf, path, app, m, there, owned, l);
    forall x | x in Edges(Shown(l)) ensures x.source == "registry:" + m { PlantedEdges(pf, path, app, m, there, owned, l, x); }
    forall id | id in Nodes(Shown(l)) ensures "file:" <= id || id == "registry:" + m { PlantedNodes(pf, path, app, m, there, owned, l, id); }
  }

  lemma PlantedIsVerified(pf: Platform, path: Path, app: Path, m: string, there: bool, owned: bool, l: Build)
    requires app != path && (owned ==> there) && Regular(pf, l) && l.i == Planted(path, app, m, there, owned)
    ensures Verified(Shown(l))
  {
    hide Regular, Runtime, AllFindings, RuntimeMaterial, HashOf, Planted, PathsOf;
    RuntimeHashShown(pf, l);
    FindingsShown(pf, l);
    NoFindings(pf, path, app, m, there, owned);
  }

  lemma FindingsShown(pf: Platform, l: Build)
    requires Regular(pf, l)
    ensures l.c.findings == AllFindings(l.i, l.py, l.fe)
  {
    AssembledFrom(pf, l);
    hide Regular, AllEdges, AllFindings, Assembled;
    AssembledKeeps(pf, l.i, l.c.records, AllEdges(l.i, l.py, l.fe), AllFindings(l.i, l.py, l.fe), l.i.governance(Runtime(l)));
  }

  lemma PlantedModules(pf: Platform, path: Path, app: Path, m: string, there: bool, owned: bool, l: Build)
    requires Regular(pf, l) && l.i == Planted(path, app, m, there, owned)
    ensures Modules(Shown(l)).Keys == {m}
  {
    hide Regular, Modules, SnapshotModule;
    ModulesShown(pf, l);
    assert SnapshotModules(l.i).Keys == {m};
  }

  /** A step between two planted lineages is admitted exactly when the verdict on the planted file admits it. */
  lemma PlantedStep(pf: Platform, l: Build, k: Build, p: Profile, path: Path, app: Path, m: string, a: bool, b: bool, c: bool, d: bool)
    requires ShowsPlanted(pf, l, path, app, m, a, b) && ShowsPlanted(pf, k, path, app, m, c, d) && app != path
    requires m in p.registryModules && p.allowRuntimeMembershipChange && p.allowEdgeChanges && p.allowRegistryModuleChanges
    requires !p.requireRuntimeHashStable && !p.requireGraphHashStable
    ensures Admitted(Shown(l), Shown(k), p) <==>
              (path in Differing(Files(Shown(l)), Files(Shown(k))) ==>
                 FileChangeAllowed(path, Latest(Files(Shown(l)), Files(Shown(k)), path), p))
  {
    var x, y := Shown(l), Shown(k);
    hide Shown, Regular, Files, Edges, Nodes, Modules, Shaped, FileFields, Owners, FileChangeAllowed, NodeChangeAllowed, Latest, Governed,
         AppRecord, Normalized;
    assert HashesAdmitted(x, y, p);
    assert app !in Differing(Files(x), Files(y));
    forall e | e in ChangedEdges(x, y) ensures EndpointAllowed(x, y, p, e.source) { ModuleNodeAllowed(x, y, p, m); }
    forall id | id in Differing(Nodes(x), Nodes(y)) && id !in RuntimeNodeIds(x, y) ensures NodeChangeAllowed(id, Latest(Nodes(x), Nodes(y), id), p) {
      DifferingFilesAreRuntime(x, y, id);
      ModuleNodeAllowed(x, y, p, m);
    }
  }

  lemma ModuleNodeAllowed(x: Evidence, y: Evidence, p: Profile, m: string)
    requires Shaped(x) && Shaped(y) && m in p.registryModules
    ensures NodeChangeAllowed("registry:" + m, Latest(Nodes(x), Nodes(y), "registry:" + m), p)
  {
    hide Nodes, Latest, Shaped, NamedBy;
    var id := "registry:" + m;
    NamedByPath(x, y, id);
    assert id[0] == 'r' && id[9..] == m && "registry:" <= id && !("file:" <= id);
  }

  /** Where ownership is open: a step gives the file to an allowed module, the next step deletes it as
      that module's file; the two together delete a file that no allowed module owned. */
  lemma OwnershipHole(pf: Platform, p: Profile) returns (l: Build, k: Build, j: Build)
    requires OwnershipIsOpen(p)
    ensures Regular(pf, l) && Regular(pf, k) && Regular(pf, j) && Verified(Shown(l)) && Verified(Shown(k)) && Verified(Shown(j))
    ensures Admitted(Shown(l), Shown(k), p) && Admitted(Shown(k), Shown(j), p) && !Admitted(Shown(l), Shown(j), p)
  {
    var m :| m in p.registryModules && ModuleName(m);
    var path :| path != "" && Stripped(path) && !PrefixAllowed(path, p.pathPrefixes);
    var app := OtherThan(path);
    assert app != "" && Stripped(app) && app != path;
    hide ShowsPlanted, Admitted, ModuleName, Stripped, PrefixAllowed, Shown, Regular;
    l := PlantedShows(pf, path, app, m, true, false);
    k := PlantedShows(pf, path, app, m, true, true);
    j := PlantedShows(pf, path, app, m, false, false);
    PlantedStep(pf, l, k, p, path, app, m, true, false, true, true);
    PlantedStep(pf, k, j, p, path, app, m, true, true, false, false);
    PlantedStep(pf, l, j, p, path, app, m, true, false, false, false);
    PlantedVerdicts(pf, l, k, j, p, path, app, m);
  }

  lemma PlantedVerdicts(pf: Platform, l: Build, k: Build, j: Build, p: Profile, path: Path, app: Path, m: string)
    requires ShowsPlanted(pf, l, path, app, m, true, false) && ShowsPlanted(pf, k, path, app, m, true, true)
    requires ShowsPlanted(pf, j, path, app, m, false, false) && app != path
    requires m in p.registryModules && !PrefixAllowed(path, p.pathPrefixes)
    ensures Regular(pf, l) && Regular(pf, k) && Regular(pf, j) && Verified(Shown(l)) && Verified(Shown(k)) && Verified(Shown(j))
    ensures FileChangeAllowed(path, Latest(Files(Shown(l)), Files(Shown(k)), path), p)
    ensures FileChangeAllowed(path, Latest(Files(Shown(k)), Files(Shown(j)), path), p)
    ensures path in Differing(Files(Shown(l)), Files(Shown(j)))
    ensures !FileChangeAllowed(path, Latest(Files(Shown(l)), Files(Shown(j)), path), p)
  {
    hide Shown, Regular, Files, Edges, Nodes, Modules, Shaped, FileFields, Owners, Governed, AppRecord, PrefixAllowed, Normalized;
    assert m in {m} * p.registryModules;
  }

  /** Exactly which profiles let a chain of updates of compiled lineages be skipped to its ends. */
  lemma ComposesExactly(pf: Platform, p: Profile)
    requires CanonIsInjective(pf)
    ensures ComposesAlways(pf, p) <==> !OwnershipIsOpen(p)
  {
    hide Regular, Shown, Admitted, CanonIsInjective, RuntimesCollide, GraphsCollide;
    if OwnershipIsOpen(p) {
      var l, k, j := OwnershipHole(pf, p);
    } else {
      hide RestsOnCollision, OwnershipIsOpen;
      forall l: Build, k: Build, j: Build
        | Regular(pf, l) && Regular(pf, k) && Regular(pf, j) && Admitted(Shown(l), Shown(k), p) && Admitted(Shown(k), Shown(j), p)
        ensures Admitted(Shown(l), Shown(j), p) || RestsOnCollision(pf, p, l, k) || RestsOnCollision(pf, p, k, j)
      {
        CompiledUpdatesCompose(pf, l, k, j, p);
      }
    }
  }
}
