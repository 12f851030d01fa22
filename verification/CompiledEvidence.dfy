/** What the update gate reads of a compiled lineage: the files with their owners, the edges, and the
    module records. An owner of a file shows three times over: in the file's node, as an edge from the
    module, and in the module's record. */
module CompiledEvidence {
  import opened Sorting
  import opened TextOrder
  import opened Closure
  import opened PyText
  import opened Json
  import opened Platform
  import opened Wrappers
  import opened LineageGraph
  import opened LineageCompiler
  import opened LineageEvidence
  import opened UpdateGateTheorems
  import opened CompiledGate
  import UpdateGate

  /** One run of the compiler: its inputs, the two closures, and what came out. */
  datatype Build = Build(i: Inputs, py: set<Path>, fe: set<Path>, c: Compiled)

  function Runtime(l: Build): set<Path> {
    RuntimePaths(l.i, l.py, l.fe)
  }

  function Shown(l: Build): UpdateGate.Evidence {
    Presented(l.c)
  }

  const OWNING := {"REGISTRY_OWNS", "RUNS"}

  /** The edge as the gate reads it. */
  function Clean(e: Edge): Edge {
    Edge(Strip(e.source), Strip(e.target), Strip(e.kind))
  }

  predicate InTree(i: Inputs, id: string) {
    "file:" <= id ==> id[5..] in i.tree.files
  }

  /** The governance compiler links interfaces only to files that exist, and owns nothing. */
  ghost predicate Fits(i: Inputs, e: Edge) {
    Clean(e).kind !in OWNING && InTree(i, Clean(e).source) && InTree(i, Clean(e).target)
  }

  ghost predicate Regular(pf: Platform, l: Build) {
    && IsLineage(pf, l.i, l.py, l.fe, l.c) && Tidy(l.i, Runtime(l))
    && forall e | e in l.i.governance(Runtime(l)).edges :: Fits(l.i, e)
  }

  // ------------------------------------------------------------------ files and owners

  function OwnersIn(l: Build, p: Path): set<string> {
    SeedOwners(l.i.tree, Seeding(l.i), p)
  }

  lemma FilesShown(pf: Platform, l: Build)
    requires Regular(pf, l)
    ensures Shaped(Shown(l)) && UpdateGate.Files(Shown(l)).Keys == Runtime(l)
    ensures forall p | p in Runtime(l) ::
              p in l.i.tree.files && UpdateGate.Files(Shown(l))[p] == FileFields(RecordAt(pf, l.i, l.py, l.fe, p))
  {
    hide Regular, Runtime, Shown, Carries, UpdateGate.Files, UpdateGate.Nodes, Shaped, FileFields, RecordAt;
    IsShaped(pf, l);
    forall p ensures p in UpdateGate.Files(Shown(l)) <==> p in Runtime(l)
             ensures p in Runtime(l) ==>
                       p in l.i.tree.files && UpdateGate.Files(Shown(l))[p] == FileFields(RecordAt(pf, l.i, l.py, l.fe, p)) {
      FileShown(pf, l, Shown(l), p);
    }
  }

  lemma IsShaped(pf: Platform, l: Build)
    requires Regular(pf, l)
    ensures Shaped(Shown(l)) && Carries(pf, l.i, l.py, l.fe, UpdateGate.Nodes(Shown(l)))
  {
    hide IsLineage, Tidy, RuntimePaths, Carries, UpdateGate.Nodes, Shaped, Presented;
    CompiledGraphIsShaped(pf, l.i, l.py, l.fe, l.c);
  }

  lemma FileShown(pf: Platform, l: Build, e: UpdateGate.Evidence, p: Path)
    requires Shaped(e) && Carries(pf, l.i, l.py, l.fe, UpdateGate.Nodes(e))
    ensures p in UpdateGate.Files(e) <==> p in Runtime(l)
    ensures p in Runtime(l) ==> p in l.i.tree.files && UpdateGate.Files(e)[p] == FileFields(RecordAt(pf, l.i, l.py, l.fe, p))
  {
    hide Shaped, RuntimePaths, UpdateGate.Files, UpdateGate.Nodes, FileFields, RecordAt;
    FilesAreNodes(e, p);
  }

  lemma TextsHold(s: seq<string>, x: string)
    ensures Str(x) in ItemsOrEmpty(Texts(s)) <==> x in s
  {
    var items := ItemsOrEmpty(Texts(s));
    if x in s {
      var k :| 0 <= k < |s| && s[k] == x;
      assert items[k] == Str(x);
    }
  }

  lemma OwnersShown(pf: Platform, l: Build, p: Path)
    requires p in l.i.tree.files
    ensures UpdateGate.Owners(FileFields(RecordAt(pf, l.i, l.py, l.fe, p))) == OwnersIn(l, p)
  {
    hide SeedOwners, SortText, RolesAt, Seeding, Sha;
    var names := SortText(OwnersIn(l, p));
    var node := FileFields(RecordAt(pf, l.i, l.py, l.fe, p));
    assert Get(node, "registryModules") == Texts(names);
    forall m ensures m in UpdateGate.Owners(node) <==> m in OwnersIn(l, p) {
      TextsHold(names, m);
      assert m in names <==> m in Elements(names);
      if m in OwnersIn(l, p) { assert Text(Str(m)) in UpdateGate.Owners(node); }
    }
  }

  // ------------------------------------------------------------------ owners and module records

  function RunnerFile(t: Tree, decl: ModuleDecl): Option<Path>
    requires decl.ModuleDecl?
  {
    var runner := SplitEntry(TextOrEmpty(decl.rawRunner));
    if runner.Some? then ModuleToPath(t, runner.value.0) else None
  }

  /** A required module declares the file, or runs it. */
  predicate Declares(t: Tree, scope: Scope, m: string, p: Path) {
    && m in scope.modules && scope.modules[m].ModuleDecl?
    && (p in scope.modules[m].paths || RunnerFile(t, scope.modules[m]) == Some(p))
  }

  ghost predicate Owns(actions: seq<Action>, m: string, p: Path) {
    exists a :: a in actions && a.Add? && a.path == p && a.owner == m
  }

  lemma OwnsJoined(a: seq<Action>, b: seq<Action>, m: string, p: Path)
    ensures Owns(a + b, m, p) <==> Owns(a, m, p) || Owns(b, m, p)
  {
    if Owns(a, m, p) { var x :| x in a && x.Add? && x.path == p && x.owner == m; assert x in a + b; }
    if Owns(b, m, p) { var x :| x in b && x.Add? && x.path == p && x.owner == m; assert x in a + b; }
  }

  /** The actions of one required module. */
  function OneModule(t: Tree, scope: Scope, id: string): seq<Action> {
    if id !in scope.modules then [Report(RequiredModuleMissing(id))]
    else if scope.modules[id].NotAnObject? then []
    else
      var decl := scope.modules[id];
      var paths := SortText(decl.paths);
      seq(|paths|, i requires 0 <= i < |paths| => Add(paths[i], "registry_implementation", QueueFor(paths[i]), id, "REGISTRY_OWNS")) +
      (if TextOrEmpty(decl.rawRunner) == "" then [Report(RunnerMissing(id))]
       else EntryActions(t, TextOrEmpty(decl.rawRunner), "registry_runner", id, "RUNS", BadRunner(id)))
  }

  lemma OneModuleOwns(t: Tree, scope: Scope, id: string, m: string, p: Path)
    requires m != ""
    ensures Owns(OneModule(t, scope, id), m, p) <==> m == id && Declares(t, scope, id, p)
    ensures forall a | a in OneModule(t, scope, id) && a.Add? :: a.owner == id && a.kind in OWNING
  {
    hide SortText, QueueFor, TextOrEmpty;
    if id in scope.modules && scope.modules[id].ModuleDecl? {
      var decl := scope.modules[id];
      var paths := SortText(decl.paths);
      var first := seq(|paths|, i requires 0 <= i < |paths| => Add(paths[i], "registry_implementation", QueueFor(paths[i]), id, "REGISTRY_OWNS"));
      var text := TextOrEmpty(decl.rawRunner);
      var second := if text == "" then [Report(RunnerMissing(id))] else EntryActions(t, text, "registry_runner", id, "RUNS", BadRunner(id));
      OwnsJoined(first, second, m, p);
      PathsOwned(paths, first, id, m, p);
      assert p in paths <==> p in Elements(paths);
      RunnerOwned(t, text, id, m, p);
    }
  }

  lemma PathsOwned(paths: seq<Path>, actions: seq<Action>, id: string, m: string, p: Path)
    requires actions == seq(|paths|, i requires 0 <= i < |paths| =>
                              Add(paths[i], "registry_implementation", QueueFor(paths[i]), id, "REGISTRY_OWNS"))
    ensures Owns(actions, m, p) <==> m == id && p in paths
    ensures forall a | a in actions :: a.Add? && a.owner == id && a.kind in OWNING
  {
    hide QueueFor;
    if m == id && p in paths {
      var k :| 0 <= k < |paths| && paths[k] == p;
      assert actions[k] in actions;
    }
  }

  lemma RunnerOwned(t: Tree, text: string, id: string, m: string, p: Path)
    ensures var parts := SplitEntry(text);
            var actions := if text == "" then [Report(RunnerMissing(id))] else EntryActions(t, text, "registry_runner", id, "RUNS", BadRunner(id));
            && (Owns(actions, m, p) <==> m == id && parts.Some? && ModuleToPath(t, parts.value.0) == Some(p))
            && forall a | a in actions && a.Add? :: a.owner == id && a.kind in OWNING
  {
    var parts := SplitEntry(text);
    if parts.Some? && ModuleToPath(t, parts.value.0).Some? {
      var file := ModuleToPath(t, parts.value.0).value;
      var actions := EntryActions(t, text, "registry_runner", id, "RUNS", BadRunner(id));
      assert actions[0] == Add(file, "registry_runner", PythonQueue, id, "RUNS");
      assert forall a | a in actions && a.Add? :: a == actions[0];
    }
  }

  lemma {:induction false} ModulesOwn(t: Tree, scope: Scope, ids: seq<string>, m: string, p: Path)
    requires m != ""
    ensures Owns(ModuleActions(t, scope, ids), m, p) <==> m in ids && Declares(t, scope, m, p)
    ensures forall a | a in ModuleActions(t, scope, ids) && a.Add? :: a.owner in ids && a.kind in OWNING
  {
    hide Declares, OneModule, Owns;
    if ids == [] {
      NothingOwned(m, p);
    } else {
      OneModuleOwns(t, scope, ids[0], m, p);
      ModulesOwn(t, scope, ids[1..], m, p);
      FirstModule(t, scope, ids);
      OwnsJoined(OneModule(t, scope, ids[0]), ModuleActions(t, scope, ids[1..]), m, p);
    }
  }

  lemma NothingOwned(m: string, p: Path)
    ensures !Owns([], m, p)
  {
  }

  lemma FirstModule(t: Tree, scope: Scope, ids: seq<string>)
    requires ids != []
    ensures ModuleActions(t, scope, ids) == OneModule(t, scope, ids[0]) + ModuleActions(t, scope, ids[1..])
  {
  }

  /** The seeds that no module owns. */
  function Unowned(t: Tree, scope: Scope): seq<Action> {
    (if scope.expectedRegistryHash == "" || scope.actualRegistryHash == scope.expectedRegistryHash then []
     else [Report(RegistryHashMismatch)]) +
    (if |scope.entrypoints| == 1 then [] else [Report(EntrypointCount)]) +
    EntrypointActions(t, scope.entrypoints) + FileActions(scope.seedFiles) +
    GlobActions(t, scope.seedGlobs) + RootActions(scope.staticRoots)
  }

  lemma {:induction false} EntrypointsUnowned(t: Tree, entries: seq<string>)
    ensures forall a | a in EntrypointActions(t, entries) && a.Add? :: a.owner == ""
  {
    if entries != [] { EntrypointsUnowned(t, entries[1..]); }
  }

  lemma {:induction false} GlobsUnowned(t: Tree, patterns: seq<string>)
    ensures forall a | a in GlobActions(t, patterns) && a.Add? :: a.owner == ""
  {
    hide QueueFor;
    if patterns != [] { GlobsUnowned(t, patterns[1..]); }
  }

  lemma UnownedHasNoOwner(t: Tree, scope: Scope)
    ensures forall a | a in Unowned(t, scope) && a.Add? :: a.owner == ""
  {
    hide EntrypointActions, GlobActions, QueueFor;
    EntrypointsUnowned(t, scope.entrypoints);
    GlobsUnowned(t, scope.seedGlobs);
  }

  /** What the seeds say of owners. */
  lemma SeedsOwn(i: Inputs, m: string, p: Path)
    requires m != ""
    ensures Owns(Seeding(i), m, p) <==> m in i.scope.requiredModules && Declares(i.tree, i.scope, m, p)
    ensures forall a | a in Seeding(i) && a.Add? && a.owner != "" :: a.owner in i.scope.requiredModules && a.kind in OWNING
  {
    hide Declares;
    var first, second := Unowned(i.tree, i.scope), ModuleActions(i.tree, i.scope, i.scope.requiredModules);
    AllActions(i);
    UnownedHasNoOwner(i.tree, i.scope);
    ModulesOwn(i.tree, i.scope, i.scope.requiredModules, m, p);
    OwnsJoined(first, second, m, p);
    assert !Owns(first, m, p);
  }

  lemma AllActions(i: Inputs)
    ensures Seeding(i) == Unowned(i.tree, i.scope) + ModuleActions(i.tree, i.scope, i.scope.requiredModules)
  {
  }

  // ------------------------------------------------------------------ module records

  lemma ModulesShown(pf: Platform, l: Build)
    requires Regular(pf, l)
    ensures UpdateGate.Modules(Shown(l)) == SnapshotModules(l.i)
  {
    AssembledFrom(pf, l);
    hide Regular, AllEdges, AllFindings, Assembled, SnapshotModules;
    SnapshotOfAssembled(pf, l.i, l.c.records, AllEdges(l.i, l.py, l.fe), AllFindings(l.i, l.py, l.fe), l.i.governance(Runtime(l)));
  }

  lemma AssembledFrom(pf: Platform, l: Build)
    requires Regular(pf, l)
    ensures l.c == Assembled(pf, l.i, l.c.records, AllEdges(l.i, l.py, l.fe), AllFindings(l.i, l.py, l.fe), l.i.governance(Runtime(l)))
  {
    hide AreClosures, RuntimePaths, AllEdges, AllFindings, RecordsAt, SortText, Assembled, Tidy, Fits;
    AssembledKeeps(pf, l.i, RecordsAt(pf, l.i, l.py, l.fe, SortText(Runtime(l))),
                   AllEdges(l.i, l.py, l.fe), AllFindings(l.i, l.py, l.fe), l.i.governance(Runtime(l)));
  }

  lemma AssembledKeeps(pf: Platform, i: Inputs, records: seq<FileRecord>, edges: set<Edge>, findings: set<Finding>, g: Governance)
    ensures var c := Assembled(pf, i, records, edges, findings, g); c.records == records && c.findings == findings
  {
    hide GraphDocument, GraphMaterial, VerificationReport, ReportMaterial, RegistrySnapshot, SnapshotMaterial, EvidenceManifest, EvidenceMaterial;
  }

  lemma SnapshotOfAssembled(pf: Platform, i: Inputs, records: seq<FileRecord>, edges: set<Edge>, findings: set<Finding>, g: Governance)
    ensures UpdateGate.Modules(Presented(Assembled(pf, i, records, edges, findings, g))) == SnapshotModules(i)
  {
    hide GraphDocument, GraphMaterial, VerificationReport, ReportMaterial, EvidenceManifest, EvidenceMaterial, SnapshotModules, HashOf, Governed,
         RuntimeMaterial;
    var material := SnapshotMaterial(pf, i, records, g);
    assert Get(RegistrySnapshot(pf, material), "modules") == Get(material, "modules") == Obj(SnapshotModules(i));
  }

  lemma EdgesOfAssembled(pf: Platform, i: Inputs, records: seq<FileRecord>, edges: set<Edge>, findings: set<Finding>, g: Governance)
    ensures UpdateGate.Edges(Presented(Assembled(pf, i, records, edges, findings, g))) == UpdateGate.EdgesOf(EdgesJson(SortEdges(edges)))
  {
    hide VerificationReport, ReportMaterial, RegistrySnapshot, SnapshotMaterial, EvidenceManifest, EvidenceMaterial, HashOf, GraphNodes,
         SortEdges, EdgesJson, UpdateGate.EdgesOf;
  }

  /** A module record names the file as its implementation or as its runner's. */
  predicate RecordNames(record: Json, p: Path) {
    record.Obj? && (Str(p) in ItemsOrEmpty(Get(record.fields, "implementationPaths")) || Get(record.fields, "runnerPath") == Str(p))
  }

  lemma RecordSays(t: Tree, scope: Scope, m: string, p: Path)
    requires m in scope.modules && scope.modules[m].ModuleDecl?
    ensures RecordNames(SnapshotModule(t, m, scope.modules[m]), p) <==> Declares(t, scope, m, p)
  {
    hide SortText, TextOrEmpty, SplitEntry, ModuleToPath;
    var decl := scope.modules[m];
    var paths := SortText(decl.paths);
    TextsHold(paths, p);
    assert p in paths <==> p in Elements(paths);
    assert Get(SnapshotModule(t, m, decl).fields, "implementationPaths") == Texts(paths);
  }

  /** The owners of a file can be read off the module records alone. */
  lemma OwnersAreRecorded(i: Inputs, p: Path, m: string)
    requires p in i.tree.files
    ensures m in SeedOwners(i.tree, Seeding(i), p) <==> m != "" && m in SnapshotModules(i) && RecordNames(SnapshotModules(i)[m], p)
  {
    hide Declares, Seeding, SnapshotModule, RecordNames;
    if m != "" {
      SeedsOwn(i, m, p);
      if m in SnapshotModules(i) { RecordSays(i.tree, i.scope, m, p); }
      DeclaredIsRequired(i.tree, i.scope, m, p);
    }
  }

  lemma DeclaredIsRequired(t: Tree, scope: Scope, m: string, p: Path)
    ensures Declares(t, scope, m, p) ==> m in scope.modules && scope.modules[m].ModuleDecl?
  {
  }

  /** An owned file is a runtime file. */
  lemma OwnedIsRuntime(l: Build, p: Path)
    requires OwnersIn(l, p) != {}
    ensures p in Runtime(l) && p in l.i.tree.files
  {
    hide Seeding;
    var m :| m in OwnersIn(l, p);
    assert p in Seeds(l.i.tree, Seeding(l.i));
  }

  // ------------------------------------------------------------------ edges

  predicate Whole(e: Edge) {
    e.source != "" && e.target != "" && e.kind != ""
  }

  lemma {:induction false} EdgesRead(list: seq<Edge>)
    ensures forall e :: e in UpdateGate.EdgesOf(EdgesJson(list)) <==> exists raw :: raw in list && e == Clean(raw) && Whole(e)
  {
    hide Strip;
    if list != [] {
      var n := |list| - 1;
      EdgesRead(list[..n]);
      var front, all := UpdateGate.EdgesOf(EdgesJson(list[..n])), UpdateGate.EdgesOf(EdgesJson(list));
      assert EdgesJson(list)[..n] == EdgesJson(list[..n]) && EdgesJson(list)[n] == EdgeJson(list[n]);
      assert all == UpdateGate.AddEdge(front, EdgeJson(list[n]));
      LastEdge(front, list[n]);
      forall e ensures e in all <==> exists raw :: raw in list && e == Clean(raw) && Whole(e) {
        if e in front {
          var raw :| raw in list[..n] && e == Clean(raw) && Whole(e);
          assert raw in list;
        }
        if e == Clean(list[n]) { assert list[n] in list; }
        if raw :| raw in list && e == Clean(raw) && Whole(e) {
          assert raw in list[..n] || raw == list[n];
        }
      }
    }
  }

  lemma LastEdge(front: set<Edge>, raw: Edge)
    ensures UpdateGate.AddEdge(front, EdgeJson(raw)) == front + if Whole(Clean(raw)) then {Clean(raw)} else {}
  {
    hide Strip;
    var fields := EdgeJson(raw).fields;
    assert TextOrEmpty(Get(fields, "from")) == raw.source && TextOrEmpty(Get(fields, "to")) == raw.target;
    assert TextOrEmpty(Get(fields, "type")) == raw.kind;
  }

  lemma EdgesShown(pf: Platform, l: Build)
    requires Regular(pf, l)
    ensures forall e :: e in UpdateGate.Edges(Shown(l)) <==> exists raw :: raw in AllEdges(l.i, l.py, l.fe) && e == Clean(raw) && Whole(e)
  {
    AssembledFrom(pf, l);
    hide Regular, AllEdges, AllFindings, Assembled, EdgesJson, SortEdges, UpdateGate.Edges, UpdateGate.EdgesOf, Clean, Whole;
    var all := AllEdges(l.i, l.py, l.fe);
    var listed := SortEdges(all);
    EdgesOfAssembled(pf, l.i, l.c.records, all, AllFindings(l.i, l.py, l.fe), l.i.governance(Runtime(l)));
    EdgesRead(listed);
    assert forall raw :: raw in all <==> raw in Elements(listed);
  }

  /** The gate sees the module linked to the file. */
  ghost predicate Linked(edges: set<Edge>, m: string, p: Path) {
    exists kind | kind in OWNING :: Edge("registry:" + m, "file:" + p, kind) in edges
  }

  /** An edge from an owner, as it stands; it is read as written. */
  ghost predicate FromOwner(l: Build, raw: Edge) {
    Clean(raw) == raw && raw.kind in OWNING && exists m, p :: m in OwnersIn(l, p) && raw.source == "registry:" + m && raw.target == "file:" + p
  }

  lemma OwnerEdge(pf: Platform, l: Build, m: string, p: Path, kind: string)
    requires Regular(pf, l) && m in OwnersIn(l, p) && kind in OWNING
    ensures Clean(Edge("registry:" + m, "file:" + p, kind)) == Edge("registry:" + m, "file:" + p, kind)
    ensures m != "" && Stripped(m) && p != "" && Stripped(p)
  {
    hide IsLineage, RuntimePaths, Strip, Seeding, SnapshotModule, RecordNames, Fits;
    OwnedIsRuntime(l, p);
    OwnersAreRecorded(l.i, p, m);
    assert m in SnapshotModules(l.i) && p in Runtime(l);
    StripFixesExactly("registry:" + m);
    StripFixesExactly("file:" + p);
    StripFixesExactly(kind);
  }

  lemma SeedEdgeIs(pf: Platform, l: Build, raw: Edge)
    requires Regular(pf, l) && raw in SeedEdges(l.i.tree, Seeding(l.i))
    ensures FromOwner(l, raw)
  {
    hide Regular, Clean, Seeding;
    var a :| a in Seeding(l.i) && a.Add? && a.path in l.i.tree.files && a.owner != "" &&
             raw == Edge("registry:" + a.owner, "file:" + a.path, a.kind);
    assert a.owner in OwnersIn(l, a.path);
    SeedsOwn(l.i, a.owner, a.path);
    OwnerEdge(pf, l, a.owner, a.path, a.kind);
  }

  /** An edge along a closure joins two runtime files. */
  lemma FileEdgeIs(l: Build, next: Path -> set<Path>, seeds: set<Path>, reach: set<Path>, kind: string, raw: Edge)
    requires IsReach(next, seeds, reach) && reach <= l.i.tree.files.Keys && raw in FileEdges(next, reach, kind)
    requires forall p | p in reach :: p != "" && Stripped(p)
    requires Stripped(kind) && kind !in OWNING
    ensures Fits(l.i, raw)
  {
    hide Strip;
    var p, q :| p in reach && q in next(p) && raw == Edge("file:" + p, "file:" + q, kind);
    assert q in reach;
    StripFixesExactly("file:" + p);
    StripFixesExactly("file:" + q);
    StripFixesExactly(kind);
    assert ("file:" + p)[5..] == p && ("file:" + q)[5..] == q;
  }

  /** Whatever edge the compiler writes comes from an owner, or owns nothing and ends at existing files. */
  lemma RawEdge(pf: Platform, l: Build, raw: Edge)
    requires Regular(pf, l) && raw in AllEdges(l.i, l.py, l.fe)
    ensures FromOwner(l, raw) || Fits(l.i, raw)
  {
    hide FromOwner, Fits, SeedEdges, FileEdges, IsReach, Imports, References, Assembled, SeedsFor, Seeding, AllFindings;
    TidyClosures(pf, l);
    if raw in SeedEdges(l.i.tree, Seeding(l.i)) {
      SeedEdgeIs(pf, l, raw);
    } else if raw in FileEdges(Imports(l.i.tree), l.py, "IMPORTS") {
      FileEdgeIs(l, Imports(l.i.tree), SeedsFor(l.i.tree, Seeding(l.i), PythonQueue), l.py, "IMPORTS", raw);
    } else if raw in FileEdges(References(l.i.tree), l.fe, "REFERENCES") {
      FileEdgeIs(l, References(l.i.tree), SeedsFor(l.i.tree, Seeding(l.i), FrontendQueue), l.fe, "REFERENCES", raw);
    }
  }

  lemma TidyClosures(pf: Platform, l: Build)
    requires Regular(pf, l)
    ensures AreClosures(l.i, l.py, l.fe) && forall p | p in l.py + l.fe :: p != "" && Stripped(p)
  {
    hide AreClosures, Assembled, AllEdges, AllFindings, RecordsAt, Stripped, Seeding, Initializers, Fits;
  }

  /** The owners of a file can be read off the edges alone. */
  lemma OwnersAreLinked(pf: Platform, l: Build, m: string, p: Path)
    requires Regular(pf, l) && m != "" && Stripped(m) && p != "" && Stripped(p)
    ensures Linked(UpdateGate.Edges(Shown(l)), m, p) <==> m in OwnersIn(l, p)
  {
    hide Regular, UpdateGate.Edges, Clean, Seeding, Stripped;
    EdgesShown(pf, l);
    if m in OwnersIn(l, p) {
      var a :| a in Seeding(l.i) && a.Add? && a.path in l.i.tree.files && a.path == p && a.owner == m;
      SeedsOwn(l.i, m, p);
      OwnerEdge(pf, l, m, p, a.kind);
      var raw := Edge("registry:" + m, "file:" + p, a.kind);
      assert raw in AllEdges(l.i, l.py, l.fe);
      assert Whole(raw);
    }
    if kind :| kind in OWNING && Edge("registry:" + m, "file:" + p, kind) in UpdateGate.Edges(Shown(l)) {
      var e := Edge("registry:" + m, "file:" + p, kind);
      var raw :| raw in AllEdges(l.i, l.py, l.fe) && e == Clean(raw) && Whole(e);
      RawEdge(pf, l, raw);
      assert FromOwner(l, raw);
      var m', p' :| m' in OwnersIn(l, p') && raw.source == "registry:" + m' && raw.target == "file:" + p';
      assert m == e.source[9..] == m' && p == e.target[5..] == p';
    }
  }

  /** The files at the ends of an edge exist. */
  lemma EndsExist(pf: Platform, l: Build, e: Edge)
    requires Regular(pf, l) && e in UpdateGate.Edges(Shown(l))
    ensures InTree(l.i, e.source) && InTree(l.i, e.target)
  {
    hide Regular, UpdateGate.Edges, Clean, Seeding;
    EdgesShown(pf, l);
    var raw :| raw in AllEdges(l.i, l.py, l.fe) && e == Clean(raw) && Whole(e);
    RawEdge(pf, l, raw);
    if FromOwner(l, raw) {
      var m, p :| m in OwnersIn(l, p) && raw.source == "registry:" + m && raw.target == "file:" + p;
      OwnedIsRuntime(l, p);
      assert e.source[0] == 'r' && e.target[5..] == p;
    }
  }
}
