/** scripts/compile_competition_lineage.py: seeds, the two closures, package initialisers, boundary
    checks, and the records that come out. */
module LineageCompiler {
  import opened Sorting
  import opened TextOrder
  import opened Closure
  import opened PyText
  import opened Json
  import opened LineageGraph
  import opened Platform
  import opened Wrappers

  datatype FileEntry = FileEntry(data: Bytes, executable: bool)

  /** A source tree of regular files, with what the AST and the reference patterns find in them. */
  datatype Tree = Tree(
    files: map<Path, FileEntry>,
    modulePath: string -> Path,         // a/b.py for module a.b, "" when the name has no parts
    packagePath: string -> Path,        // a/b/__init__.py for module a.b
    imports: Path -> seq<string>,
    importFindings: Path -> seq<string>,
    references: Path -> seq<Path>,
    symbols: Path -> set<string>,       // top_level_symbols; a file with a syntax error has none
    glob: string -> seq<Path>,
    appEntrypoints: seq<AppEntrypoint>) // detect_fastapi_entrypoints

  datatype AppEntrypoint = AppEntrypoint(entrypoint: string, path: Path)

  datatype ModuleDecl = ModuleDecl(paths: set<Path>, rawRunner: Json, fieldIds: set<string>, schemaIds: set<string>) | NotAnObject

  datatype Scope = Scope(
    registryPath: Path, allowedPrefixes: seq<string>, forbiddenPrefixes: seq<string>, forbiddenNames: set<string>,
    entrypoints: seq<string>, seedFiles: seq<Path>, seedGlobs: seq<string>, staticRoots: seq<Path>,
    requiredModules: seq<string>, modules: map<string, ModuleDecl>,
    expectedRegistryHash: string, actualRegistryHash: string, failOnShadow: bool)

  /** `module_to_path`: the module file if it exists, else the package's initialiser if that exists. */
  function ModuleToPath(t: Tree, name: string): Option<Path> {
    if t.modulePath(name) in t.files then Some(t.modulePath(name))
    else if t.packagePath(name) in t.files then Some(t.packagePath(name))
    else None
  }

  /** The local files a Python file imports. */
  function Imported(t: Tree, p: Path): set<Path> {
    FilesOfModules(t, t.imports(p))
  }

  function Imports(t: Tree): Path -> set<Path> {
    p => Imported(t, p)
  }

  function Referenced(t: Tree, p: Path): set<Path> {
    set r | r in t.references(p) && r in t.files
  }

  function References(t: Tree): Path -> set<Path> {
    p => Referenced(t, p)
  }

  // ------------------------------------------------------------------ seeds

  datatype Queue = PythonQueue | FrontendQueue | NoQueue

  datatype Finding =
    | RegistryHashMismatch | EntrypointCount | RequiredModuleMissing(name: string)
    | BadEntrypoint(name: string) | SymbolMissing(name: string)
    | GlobEmpty(pattern: string) | FileMissing(path: Path) | ImplementationMissing(name: string, path: Path)
    | RunnerMissing(name: string) | BadRunner(name: string)
    | ImportProblem(text: string) | GovernanceProblem(text: string)
    | ForbiddenName(path: Path) | PrivateBoundary(path: Path) | OutsideAllowlist(path: Path)
    | ShadowEntrypoints(names: seq<string>)

  /** One step of seed collection: add a file with a role and queue it, or report something. */
  datatype Action = Add(path: Path, role: string, queue: Queue, owner: string, kind: string) | Report(finding: Finding)

  /** `Path(...).suffix == ext` for an extension with its dot. */
  predicate HasSuffix(p: Path, ext: string) {
    EndsWith(p, ext) && |ext| < |p| && p[|p| - |ext| - 1] != '/'
  }

  function QueueFor(p: Path): Queue {
    if HasSuffix(p, ".py") then PythonQueue
    else if HasSuffix(Lower(p), ".html") || HasSuffix(Lower(p), ".js") || HasSuffix(Lower(p), ".mjs") || HasSuffix(Lower(p), ".css")
    then FrontendQueue
    else NoQueue
  }

  function ColonAt(s: string): (n: nat)
    ensures n <= |s|
  {
    if s == "" || s[0] == ':' then 0 else 1 + ColonAt(s[1..])
  }

  /** `module, _, symbol = s.partition(":")`, when all three parts are there. */
  function SplitEntry(s: string): Option<(string, string)> {
    var n := ColonAt(s);
    if n == 0 || n + 1 >= |s| then None else Some((s[..n], s[n + 1..]))
  }

  /** The actions for a `module:symbol` reference. */
  function EntryActions(t: Tree, entry: string, role: string, owner: string, kind: string, bad: Finding): (r: seq<Action>)
    ensures r != []
  {
    var parts := SplitEntry(entry);
    if parts.None? then [Report(bad)]
    else
      var file := ModuleToPath(t, parts.value.0);
      if file.None? then [Report(bad)]
      else [Add(file.value, role, PythonQueue, owner, kind)] +
           if parts.value.1 in t.symbols(file.value) then [] else [Report(SymbolMissing(entry))]
  }

  function EntrypointActions(t: Tree, entries: seq<string>): seq<Action> {
    if entries == [] then [] else
      EntryActions(t, entries[0], "production_entrypoint", "", "", BadEntrypoint(entries[0])) + EntrypointActions(t, entries[1..])
  }

  function FileActions(paths: seq<Path>): seq<Action> {
    seq(|paths|, i requires 0 <= i < |paths| => Add(paths[i], "fixed_runtime_seed", QueueFor(paths[i]), "", ""))
  }

  function GlobActions(t: Tree, patterns: seq<string>): seq<Action> {
    if patterns == [] then [] else
      var matches := t.glob(patterns[0]);
      (if matches == [] then [Report(GlobEmpty(patterns[0]))] else []) +
      seq(|matches|, i requires 0 <= i < |matches| => Add(matches[i], "fixed_runtime_glob:" + patterns[0], QueueFor(matches[i]), "", "")) +
      GlobActions(t, patterns[1..])
  }

  function RootActions(paths: seq<Path>): seq<Action> {
    seq(|paths|, i requires 0 <= i < |paths| => Add(paths[i], "frontend_root", FrontendQueue, "", ""))
  }

  function ModuleActions(t: Tree, scope: Scope, ids: seq<string>): seq<Action> {
    if ids == [] then [] else
      var id := ids[0];
      (if id !in scope.modules then [Report(RequiredModuleMissing(id))]
       else if scope.modules[id].NotAnObject? then []
       else
         var decl := scope.modules[id];
         var paths := SortText(decl.paths);
         seq(|paths|, i requires 0 <= i < |paths| => Add(paths[i], "registry_implementation", QueueFor(paths[i]), id, "REGISTRY_OWNS")) +
         (if TextOrEmpty(decl.rawRunner) == "" then [Report(RunnerMissing(id))]
          else EntryActions(t, TextOrEmpty(decl.rawRunner), "registry_runner", id, "RUNS", BadRunner(id)))) +
      ModuleActions(t, scope, ids[1..])
  }

  /** Seed collection, in the order of the code. */
  function Actions(t: Tree, scope: Scope): seq<Action> {
    (if scope.expectedRegistryHash == "" || scope.actualRegistryHash == scope.expectedRegistryHash then []
     else [Report(RegistryHashMismatch)]) +
    (if |scope.entrypoints| == 1 then [] else [Report(EntrypointCount)]) +
    EntrypointActions(t, scope.entrypoints) + FileActions(scope.seedFiles) +
    GlobActions(t, scope.seedGlobs) + RootActions(scope.staticRoots) +
    ModuleActions(t, scope, scope.requiredModules)
  }

  /** The files that the actions add, all of them or those of one queue. */
  function Seeds(t: Tree, actions: seq<Action>): set<Path> {
    set a | a in actions && a.Add? && a.path in t.files :: a.path
  }

  function SeedsFor(t: Tree, actions: seq<Action>, q: Queue): set<Path> {
    set a | a in actions && a.Add? && a.path in t.files && a.queue == q :: a.path
  }

  function SeedEdges(t: Tree, actions: seq<Action>): set<Edge> {
    set a | a in actions && a.Add? && a.path in t.files && a.owner != "" :: Edge("registry:" + a.owner, "file:" + a.path, a.kind)
  }

  function SeedRoles(t: Tree, actions: seq<Action>, p: Path): set<string> {
    set a | a in actions && a.Add? && a.path in t.files && a.path == p :: a.role
  }

  function SeedOwners(t: Tree, actions: seq<Action>, p: Path): set<string> {
    set a | a in actions && a.Add? && a.path in t.files && a.path == p && a.owner != "" :: a.owner
  }

  function FindingsOfAction(t: Tree, a: Action): set<Finding> {
    if a.Report? then {a.finding}
    else if a.path in t.files then {}
    else {FileMissing(a.path)} + if a.owner == "" then {} else {ImplementationMissing(a.owner, a.path)}
  }

  function SeedFindings(t: Tree, actions: seq<Action>): set<Finding> {
    set a, f | a in actions && f in FindingsOfAction(t, a) :: f
  }

  predicate ActionIsClean(t: Tree, a: Action) {
    a.Add? && a.path in t.files
  }

  // ------------------------------------------------------------------ package initialisers

  const INIT := "__init__.py"

  /** The existing initialisers of the packages above a Python file. */
  function Initializers(t: Tree, p: Path): set<Path> {
    if !HasSuffix(p, ".py") then {} else
      set i | 0 <= i < |p| && p[i] == '/' && p[..i + 1] + INIT in t.files :: p[..i + 1] + INIT
  }

  function WithInitializers(t: Tree, paths: set<Path>): set<Path> {
    paths + set p, q | p in paths && q in Initializers(t, p) :: q
  }

  /** The packages above an initialiser are among the packages above the file it was found for. */
  lemma InitializersOfInitializer(t: Tree, p: Path, q: Path)
    requires q in Initializers(t, p)
    ensures Initializers(t, q) <= Initializers(t, p)
  {
    hide HasSuffix;
    var i :| 0 <= i < |p| && p[i] == '/' && q == p[..i + 1] + INIT;
    forall r | r in Initializers(t, q) ensures r in Initializers(t, p) {
      var j :| 0 <= j < |q| && q[j] == '/' && r == q[..j + 1] + INIT;
      SlashInHead(p, i, j);
    }
  }

  /** A slash of an initialiser's path is a slash of the path it was found for. */
  lemma SlashInHead(p: Path, i: nat, j: nat)
    requires i < |p|
    requires var q := p[..i + 1] + INIT; j < |q| && q[j] == '/'
    ensures j <= i && p[j] == '/' && (p[..i + 1] + INIT)[..j + 1] == p[..j + 1]
  {
    var head := p[..i + 1];
    assert '/' !in INIT;
    assert forall k | |head| <= k < |head + INIT| :: (head + INIT)[k] == INIT[k - |head|];
  }

  /** One pass finds them all: adding initialisers twice adds nothing new. */
  lemma OnePassIsEnough(t: Tree, paths: set<Path>)
    ensures WithInitializers(t, WithInitializers(t, paths)) == WithInitializers(t, paths)
  {
    var once := WithInitializers(t, paths);
    forall q, r | q in once && r in Initializers(t, q) ensures r in once {
      if q !in paths {
        var p :| p in paths && q in Initializers(t, p);
        InitializersOfInitializer(t, p, q);
      }
    }
  }

  // ------------------------------------------------------------------ boundary checks

  predicate Allowed(path: Path, prefixes: seq<string>) {
    exists prefix | prefix in prefixes :: if EndsWith(prefix, "/") then prefix <= path else path == prefix
  }

  predicate Forbidden(path: Path, prefixes: seq<string>) {
    exists prefix | prefix in prefixes :: path == RStripSlash(prefix) || prefix <= path
  }

  function NameOf(p: Path): string {
    if exists i :: 0 <= i < |p| && p[i] == '/' then NameOf(p[SlashAt(p) + 1..]) else p
  }

  function SlashAt(p: Path): (n: nat)
    requires exists i :: 0 <= i < |p| && p[i] == '/'
    ensures n < |p| && p[n] == '/'
  {
    if p[0] == '/' then 0 else
      assert exists i :: 0 <= i < |p[1..]| && p[1..][i] == '/' by { var i :| 0 <= i < |p| && p[i] == '/'; assert p[1..][i - 1] == '/'; }
      1 + SlashAt(p[1..])
  }

  function BoundaryFindings(scope: Scope, p: Path): seq<Finding> {
    (if NameOf(p) in scope.forbiddenNames then [ForbiddenName(p)] else []) +
    (if Forbidden(p, scope.forbiddenPrefixes) then [PrivateBoundary(p)] else []) +
    (if scope.allowedPrefixes != [] && !Allowed(p, scope.allowedPrefixes) then [OutsideAllowlist(p)] else [])
  }

  // ------------------------------------------------------------------ the run

  function RolesOf(roles: map<Path, set<string>>, p: Path): set<string> {
    if p in roles then roles[p] else {}
  }

  /** `roles[path].add(role)` on a defaultdict. */
  function AddRole(roles: map<Path, set<string>>, p: Path, role: string): (r: map<Path, set<string>>)
    ensures forall q :: RolesOf(r, q) == RolesOf(roles, q) + if q == p then {role} else {}
  {
    roles[p := RolesOf(roles, p) + {role}]
  }

  /** The files of a set have gained one role, the others none. */
  ghost predicate RoleGiven(before: map<Path, set<string>>, after: map<Path, set<string>>, to: set<Path>, role: string) {
    forall p :: RolesOf(after, p) == RolesOf(before, p) + if p in to then {role} else {}
  }

  lemma RoleGivenTwice(a: map<Path, set<string>>, b: map<Path, set<string>>, c: map<Path, set<string>>,
                       s: set<Path>, t: set<Path>, role: string)
    requires RoleGiven(a, b, s, role) && RoleGiven(b, c, t, role)
    ensures RoleGiven(a, c, s + t, role)
  {
  }

  lemma AddRoleGives(roles: map<Path, set<string>>, p: Path, role: string)
    ensures RoleGiven(roles, AddRole(roles, p, role), {p}, role)
  {
  }

  lemma RoleGivenToNone(a: map<Path, set<string>>, role: string)
    ensures RoleGiven(a, a, {}, role)
  {
  }

  function FileEdges(next: Path -> set<Path>, from: set<Path>, kind: string): set<Edge> {
    set p, q | p in from && q in next(p) :: Edge("file:" + p, "file:" + q, kind)
  }

  ghost predicate RolesAre(t: Tree, done: seq<Action>, roles: map<Path, set<string>>) {
    forall p :: RolesOf(roles, p) == SeedRoles(t, done, p)
  }

  ghost predicate OwnersAre(t: Tree, done: seq<Action>, owners: map<Path, set<string>>) {
    forall p :: RolesOf(owners, p) == SeedOwners(t, done, p)
  }

  lemma RolesStep(t: Tree, done: seq<Action>, a: Action, before: map<Path, set<string>>, after: map<Path, set<string>>)
    requires RolesAre(t, done, before)
    requires if ActionIsClean(t, a) then RoleGiven(before, after, {a.path}, a.role) else after == before
    ensures RolesAre(t, done + [a], after)
  {
    hide SeedRoles, RolesOf;
    forall p ensures RolesOf(after, p) == SeedRoles(t, done + [a], p) { SeedRolesStep(t, done, a, p); }
  }

  lemma OwnersStep(t: Tree, done: seq<Action>, a: Action, before: map<Path, set<string>>, after: map<Path, set<string>>)
    requires OwnersAre(t, done, before)
    requires if ActionIsClean(t, a) && a.owner != "" then RoleGiven(before, after, {a.path}, a.owner) else after == before
    ensures OwnersAre(t, done + [a], after)
  {
    hide SeedOwners, RolesOf;
    forall p ensures RolesOf(after, p) == SeedOwners(t, done + [a], p) { SeedRolesStep(t, done, a, p); }
  }

  lemma SeedRolesStep(t: Tree, done: seq<Action>, a: Action, p: Path)
    ensures SeedRoles(t, done + [a], p) == SeedRoles(t, done, p) + (if ActionIsClean(t, a) && a.path == p then {a.role} else {})
    ensures SeedOwners(t, done + [a], p) ==
              SeedOwners(t, done, p) + (if ActionIsClean(t, a) && a.path == p && a.owner != "" then {a.owner} else {})
  {
    assert forall b :: b in done + [a] <==> b in done || b == a;
  }

  /** What a closure writes to. */
  datatype Books = Books(paths: set<Path>, roles: map<Path, set<string>>, edges: set<Edge>)

  /** Between two states, the files `reached` were added with one role, and every visited file was
      linked to all its successors. Nothing else changed. */
  ghost predicate Spread(next: Path -> set<Path>, kind: string, role: string, from: Books, to: Books, visited: set<Path>, reached: set<Path>) {
    && to.paths == from.paths + reached
    && to.edges == from.edges + FileEdges(next, visited, kind)
    && RoleGiven(from.roles, to.roles, reached, role)
  }

  lemma SpreadNothing(next: Path -> set<Path>, kind: string, role: string, b: Books)
    ensures Spread(next, kind, role, b, b, {}, {} + Image(next, {}))
  {
  }

  lemma SpreadStep(next: Path -> set<Path>, kind: string, role: string, a: Books, b: Books, c: Books, visited: set<Path>, path: Path)
    requires Spread(next, kind, role, a, b, visited, visited + Image(next, visited))
    requires Spread(next, kind, role, b, c, {path}, {path} + next(path))
    ensures Spread(next, kind, role, a, c, visited + {path}, visited + {path} + Image(next, visited + {path}))
  {
    hide RoleGiven, FileEdges, Image;
    var s, t := visited + Image(next, visited), {path} + next(path);
    VisitGrows(next, visited, path, kind);
    assert s + t == visited + {path} + Image(next, visited + {path});
    RoleGivenTwice(a.roles, b.roles, c.roles, s, t, role);
  }

  lemma VisitGrows(next: Path -> set<Path>, visited: set<Path>, path: Path, kind: string)
    ensures Image(next, visited + {path}) == Image(next, visited) + next(path)
    ensures FileEdges(next, visited + {path}, kind) == FileEdges(next, visited, kind) + FileEdges(next, {path}, kind)
  {
  }

  lemma SpreadEnds(next: Path -> set<Path>, kind: string, role: string, a: Books, b: Books, seeds: set<Path>, visited: set<Path>)
    requires IsReach(next, seeds, visited) && Spread(next, kind, role, a, b, visited, visited + Image(next, visited))
    ensures Spread(next, kind, role, a, b, visited, visited)
  {
    assert visited + Image(next, visited) == visited;
  }

  function ImportProblems(t: Tree, files: set<Path>): set<Finding> {
    set p, text | p in files && text in t.importFindings(p) :: ImportProblem(text)
  }

  lemma ImportProblemsGrow(t: Tree, files: set<Path>, p: Path)
    ensures ImportProblems(t, files + {p}) == ImportProblems(t, files) + ImportProblems(t, {p})
    ensures ImportProblems(t, {}) == {}
  {
  }

  class Run {
    const t: Tree
    var findings: seq<Finding>
    var runtimePaths: set<Path>
    var roles: map<Path, set<string>>
    var owners: map<Path, set<string>>
    var edges: set<Edge>
    var pythonQueue: seq<Path>
    var frontendQueue: seq<Path>

    constructor (tree: Tree)
      ensures t == tree && findings == [] && runtimePaths == {} && roles == map[] && owners == map[] && edges == {}
      ensures pythonQueue == [] && frontendQueue == []
    {
      t, findings, runtimePaths, roles, owners, edges := tree, [], {}, map[], map[], {};
      pythonQueue, frontendQueue := [], [];
    }

    /** `add_runtime_file`. */
    method AddRuntimeFile(path: Path, role: string) returns (ok: bool)
      modifies this`findings, this`runtimePaths, this`roles
      ensures ok <==> path in t.files
      ensures ok ==> findings == old(findings) && runtimePaths == old(runtimePaths) + {path}
      ensures ok ==> RoleGiven(old(roles), roles, {path}, role)
      ensures Elements(findings) == Elements(old(findings)) + if ok then {} else {FileMissing(path)}
      ensures !ok ==> runtimePaths == old(runtimePaths) && roles == old(roles)
    {
      if path !in t.files {
        findings := findings + [FileMissing(path)];
        return false;
      }
      runtimePaths := runtimePaths + {path};
      roles := AddRole(roles, path, role);
      ok := true;
    }

    /** What seed collection has done after some actions. */
    ghost predicate Collected(done: seq<Action>)
      reads this
    {
      && runtimePaths == Seeds(t, done) && edges == SeedEdges(t, done)
      && Elements(pythonQueue) == SeedsFor(t, done, PythonQueue)
      && Elements(frontendQueue) == SeedsFor(t, done, FrontendQueue)
      && Elements(findings) == SeedFindings(t, done)
      && RolesAre(t, done, roles) && OwnersAre(t, done, owners)
    }

    /** The seed loops. */
    method CollectSeeds(actions: seq<Action>)
      requires pythonQueue == [] && frontendQueue == [] && runtimePaths == {} && edges == {} && findings == []
      requires roles == map[] && owners == map[]
      modifies this
      ensures Collected(actions)
    {
      hide Collected;
      CollectedNothing();
      for i := 0 to |actions|
        invariant Collected(actions[..i])
      {
        assert actions[..i + 1] == actions[..i] + [actions[i]];
        Collect(actions[..i], actions[i]);
      }
      assert actions[..|actions|] == actions;
    }

    lemma CollectedNothing()
      requires pythonQueue == [] && frontendQueue == [] && runtimePaths == {} && edges == {} && findings == []
      requires roles == map[] && owners == map[]
      ensures Collected([])
    {
    }

    /** One seed: added, registered with its owner, and queued. */
    method Collect(ghost done: seq<Action>, a: Action)
      requires Collected(done)
      modifies this
      ensures Collected(done + [a])
    {
      hide Seeds, SeedsFor, SeedEdges, RolesAre, OwnersAre, RoleGiven, AddRole, Elements;
      ActionsStep(t, done, a);
      ghost var before := (roles, owners, pythonQueue, frontendQueue);
      match a {
        case Report(finding) =>
          ElementsAppend(findings, finding);
          findings := findings + [finding];
        case Add(path, role, queue, owner, kind) =>
          var ok := AddRuntimeFile(path, role);
          if ok {
            Own(path, owner, kind);
            Enqueue(path, queue);
          } else if owner != "" {
            ElementsAppend(findings, ImplementationMissing(owner, path));
            findings := findings + [ImplementationMissing(owner, path)];
          }
      }
      RolesStep(t, done, a, before.0, roles);
      OwnersStep(t, done, a, before.1, owners);
    }

    /** The owner of a registry file, and the edge from it. */
    method Own(path: Path, owner: string, kind: string)
      modifies this`owners, this`edges
      ensures if owner != "" then RoleGiven(old(owners), owners, {path}, owner) else owners == old(owners)
      ensures edges == old(edges) + if owner != "" then {Edge("registry:" + owner, "file:" + path, kind)} else {}
    {
      if owner != "" {
        AddRoleGives(owners, path, owner);
        owners := AddRole(owners, path, owner);
        edges := edges + {Edge("registry:" + owner, "file:" + path, kind)};
      }
    }

    method Enqueue(path: Path, queue: Queue)
      modifies this`pythonQueue, this`frontendQueue
      ensures pythonQueue == old(pythonQueue) + if queue == PythonQueue then [path] else []
      ensures frontendQueue == old(frontendQueue) + if queue == FrontendQueue then [path] else []
      ensures Elements(pythonQueue) == Elements(old(pythonQueue)) + if queue == PythonQueue then {path} else {}
      ensures Elements(frontendQueue) == Elements(old(frontendQueue)) + if queue == FrontendQueue then {path} else {}
    {
      if queue == PythonQueue {
        pythonQueue := pythonQueue + [path];
      } else if queue == FrontendQueue {
        frontendQueue := frontendQueue + [path];
      }
    }

    ghost function Now(): Books
      reads this
    {
      Books(runtimePaths, roles, edges)
    }

    /** The Python worklist: it ends on any import graph, and visits exactly the import closure. */
    method DrainPython() returns (visited: set<Path>)
      requires forall p | p in pythonQueue :: p in t.files
      modifies this`findings, this`runtimePaths, this`roles, this`edges, this`pythonQueue
      ensures pythonQueue == [] && visited <= t.files.Keys
      ensures IsReach(Imports(t), Elements(old(pythonQueue)), visited)
      ensures Spread(Imports(t), "IMPORTS", "python_import_closure", old(Now()), Now(), visited, visited)
      ensures Elements(findings) == Elements(old(findings)) + ImportProblems(t, visited)
    {
      hide Imports, Draining, IsReach, Spread, Image, ImportProblems, Elements;
      ghost var seeds := Elements(pythonQueue);
      visited := {};
      DrainStarts(Imports(t), pythonQueue);
      ImportProblemsGrow(t, {}, "");
      SpreadNothing(Imports(t), "IMPORTS", "python_import_closure", Now());
      while pythonQueue != []
        invariant visited <= t.files.Keys && (forall p | p in pythonQueue :: p in t.files)
        invariant Draining(Imports(t), seeds, visited, pythonQueue)
        invariant Spread(Imports(t), "IMPORTS", "python_import_closure", old(Now()), Now(), visited, visited + Image(Imports(t), visited))
        invariant Elements(findings) == Elements(old(findings)) + ImportProblems(t, visited)
        decreases t.files.Keys - visited, |pythonQueue|
      {
        var path := pythonQueue[0];
        ghost var whole := pythonQueue;
        pythonQueue := pythonQueue[1..];
        if path in visited {
          DrainSkips(Imports(t), seeds, visited, whole);
        } else {
          ghost var before := Now();
          var added := Visit(path);
          DrainVisits(Imports(t), seeds, visited, whole, added);
          ImportProblemsGrow(t, visited, path);
          SpreadStep(Imports(t), "IMPORTS", "python_import_closure", old(Now()), before, Now(), visited, path);
          assert path in t.files.Keys - visited;
          visited := visited + {path};
        }
      }
      DrainEnds(Imports(t), seeds, visited);
      SpreadEnds(Imports(t), "IMPORTS", "python_import_closure", old(Now()), Now(), seeds, visited);
    }

    /** The body of the Python loop for a file not visited before. */
    method Visit(path: Path) returns (ghost added: seq<Path>)
      requires path in t.files
      modifies this`findings, this`runtimePaths, this`roles, this`edges, this`pythonQueue
      ensures pythonQueue == old(pythonQueue) + added && Elements(added) == Imports(t)(path)
      ensures forall p | p in added :: p in t.files
      ensures Elements(findings) == Elements(old(findings)) + ImportProblems(t, {path})
      ensures Spread(Imports(t), "IMPORTS", "python_import_closure", old(Now()), Now(), {path}, {path} + Imports(t)(path))
    {
      hide RoleGiven, AddRole, EdgesOut, FileEdges, Imports, FilesOfModules, Elements;
      ImportedIs(t, path);
      var ok := AddRuntimeFile(path, "python_import_closure");
      ghost var before := roles;
      var problems := t.importFindings(path);
      ReportImports(path, problems);
      added := FollowImports(path, t.imports(path));
      RoleGivenTwice(old(roles), before, roles, {path}, Imports(t)(path), "python_import_closure");
      EdgesOfOne(Imports(t), path, "IMPORTS");
    }

    method ReportImports(path: Path, problems: seq<string>)
      requires problems == t.importFindings(path)
      modifies this`findings
      ensures Elements(findings) == Elements(old(findings)) + ImportProblems(t, {path})
    {
      var more := seq(|problems|, i requires 0 <= i < |problems| => ImportProblem(problems[i]));
      forall text | text in problems ensures ImportProblem(text) in more {
        var i :| 0 <= i < |problems| && problems[i] == text;
        assert more[i] == ImportProblem(text);
      }
      assert Elements(more) == ImportProblems(t, {path});
      assert Elements(findings + more) == Elements(findings) + Elements(more);
      findings := findings + more;
    }

    /** The inner loop: every module that resolves to a local file is added, linked and queued. */
    method FollowImports(path: Path, names: seq<string>) returns (ghost added: seq<Path>)
      modifies this`findings, this`runtimePaths, this`roles, this`edges, this`pythonQueue
      ensures pythonQueue == old(pythonQueue) + added && Elements(added) == FilesOfModules(t, names)
      ensures forall p | p in added :: p in t.files
      ensures runtimePaths == old(runtimePaths) + FilesOfModules(t, names)
      ensures edges == old(edges) + EdgesOut(path, FilesOfModules(t, names), "IMPORTS") && findings == old(findings)
      ensures RoleGiven(old(roles), roles, FilesOfModules(t, names), "python_import_closure")
    {
      hide EdgesOut, AddRole, RoleGiven, ModuleToPath, FilesOfModules, Elements;
      added := [];
      NoEdgesOut(path, "IMPORTS");
      RoleGivenToNone(roles, "python_import_closure");
      NoFiles(t, names);
      for i := 0 to |names|
        invariant findings == old(findings) && pythonQueue == old(pythonQueue) + added
        invariant Elements(added) == FilesOfModules(t, names[..i]) && forall p | p in added :: p in t.files
        invariant runtimePaths == old(runtimePaths) + FilesOfModules(t, names[..i])
        invariant edges == old(edges) + EdgesOut(path, FilesOfModules(t, names[..i]), "IMPORTS")
        invariant RoleGiven(old(roles), roles, FilesOfModules(t, names[..i]), "python_import_closure")
      {
        FilesOfModulesStep(t, names, i);
        var file := ModuleToPath(t, names[i]);
        if file.Some? {
          ghost var before := roles;
          var found := AddRuntimeFile(file.value, "python_import_closure");
          ElementsAppend(added, file.value);
          MoreEdgesOut(path, FilesOfModules(t, names[..i]), file.value, "IMPORTS");
          edges := edges + {Edge("file:" + path, "file:" + file.value, "IMPORTS")};
          pythonQueue := pythonQueue + [file.value];
          added := added + [file.value];
          RoleGivenTwice(old(roles), before, roles, FilesOfModules(t, names[..i]), {file.value}, "python_import_closure");
        }
      }
      assert names[..|names|] == names;
    }

    /** The frontend worklist, on the references that `normalize_local_reference` resolves. */
    method DrainFrontend() returns (visited: set<Path>)
      requires forall p | p in frontendQueue :: p in t.files
      modifies this`findings, this`runtimePaths, this`roles, this`edges, this`frontendQueue
      ensures frontendQueue == [] && visited <= t.files.Keys && findings == old(findings)
      ensures IsReach(References(t), Elements(old(frontendQueue)), visited)
      ensures Spread(References(t), "REFERENCES", "frontend_reference_closure", old(Now()), Now(), visited, visited)
    {
      hide Draining, IsReach, Spread, Image, References;
      ghost var seeds := Elements(frontendQueue);
      visited := {};
      DrainStarts(References(t), frontendQueue);
      SpreadNothing(References(t), "REFERENCES", "frontend_reference_closure", Now());
      while frontendQueue != []
        invariant visited <= t.files.Keys && (forall p | p in frontendQueue :: p in t.files) && findings == old(findings)
        invariant Draining(References(t), seeds, visited, frontendQueue)
        invariant Spread(References(t), "REFERENCES", "frontend_reference_closure", old(Now()), Now(),
                         visited, visited + Image(References(t), visited))
        decreases t.files.Keys - visited, |frontendQueue|
      {
        var path := frontendQueue[0];
        ghost var whole := frontendQueue;
        frontendQueue := frontendQueue[1..];
        if path in visited {
          DrainSkips(References(t), seeds, visited, whole);
        } else {
          ghost var before := Now();
          ReferencedIs(t, path);
          VisitPage(path);
          DrainVisits(References(t), seeds, visited, whole, LocalReferences(t, path));
          SpreadStep(References(t), "REFERENCES", "frontend_reference_closure", old(Now()), before, Now(), visited, path);
          assert path in t.files.Keys - visited;
          visited := visited + {path};
        }
      }
      DrainEnds(References(t), seeds, visited);
      SpreadEnds(References(t), "REFERENCES", "frontend_reference_closure", old(Now()), Now(), seeds, visited);
    }

    /** The body of the frontend loop for a file not visited before. */
    method VisitPage(path: Path)
      requires path in t.files
      modifies this`findings, this`runtimePaths, this`roles, this`edges, this`frontendQueue
      ensures frontendQueue == old(frontendQueue) + LocalReferences(t, path) && findings == old(findings)
      ensures Spread(References(t), "REFERENCES", "frontend_reference_closure", old(Now()), Now(), {path}, {path} + References(t)(path))
    {
      hide RoleGiven, AddRole, EdgesOut, FileEdges, References, Elements;
      var ok := AddRuntimeFile(path, "frontend_reference_closure");
      ghost var before := roles;
      ReferencedIs(t, path);
      FollowReferences(path, LocalReferences(t, path));
      RoleGivenTwice(old(roles), before, roles, {path}, References(t)(path), "frontend_reference_closure");
      EdgesOfOne(References(t), path, "REFERENCES");
    }

    method FollowReferences(path: Path, targets: seq<Path>)
      requires forall r | r in targets :: r in t.files
      modifies this`findings, this`runtimePaths, this`roles, this`edges, this`frontendQueue
      ensures frontendQueue == old(frontendQueue) + targets && findings == old(findings)
      ensures runtimePaths == old(runtimePaths) + Elements(targets)
      ensures edges == old(edges) + EdgesOut(path, Elements(targets), "REFERENCES")
      ensures RoleGiven(old(roles), roles, Elements(targets), "frontend_reference_closure")
    {
      hide EdgesOut, AddRole, RoleGiven, Elements;
      NoEdgesOut(path, "REFERENCES");
      RoleGivenToNone(roles, "frontend_reference_closure");
      NoFiles(t, []);
      assert targets[..0] == [];
      for i := 0 to |targets|
        invariant frontendQueue == old(frontendQueue) + targets[..i] && findings == old(findings)
        invariant runtimePaths == old(runtimePaths) + Elements(targets[..i])
        invariant edges == old(edges) + EdgesOut(path, Elements(targets[..i]), "REFERENCES")
        invariant RoleGiven(old(roles), roles, Elements(targets[..i]), "frontend_reference_closure")
      {
        ghost var before := roles;
        assert targets[..i + 1] == targets[..i] + [targets[i]];
        ElementsAppend(targets[..i], targets[i]);
        MoreEdgesOut(path, Elements(targets[..i]), targets[i], "REFERENCES");
        var ok := AddRuntimeFile(targets[i], "frontend_reference_closure");
        edges := edges + {Edge("file:" + path, "file:" + targets[i], "REFERENCES")};
        frontendQueue := frontendQueue + [targets[i]];
        RoleGivenTwice(old(roles), before, roles, Elements(targets[..i]), {targets[i]}, "frontend_reference_closure");
      }
      assert targets[..|targets|] == targets;
    }

    /** The boundary checks, path by path in sorted order. */
    method CheckBoundary(scope: Scope)
      modifies this`findings
      ensures Elements(findings) == Elements(old(findings)) + BoundarySet(scope, SortText(runtimePaths))
    {
      hide BoundaryFindings, SortText;
      var paths := SortText(runtimePaths);
      for i := 0 to |paths|
        invariant Elements(findings) == Elements(old(findings)) + BoundarySet(scope, paths[..i])
      {
        var more := BoundaryFindings(scope, paths[i]);
        assert paths[..i + 1] == paths[..i] + [paths[i]];
        assert BoundarySet(scope, paths[..i + 1]) == BoundarySet(scope, paths[..i]) + Elements(more);
        assert Elements(findings + more) == Elements(findings) + Elements(more);
        findings := findings + more;
      }
      assert paths[..|paths|] == paths;
    }

    /** `add_package_initializers`: one pass over the paths known so far. */
    method AddPackageInitializers()
      modifies this`runtimePaths
      ensures runtimePaths == WithInitializers(t, old(runtimePaths))
    {
      hide Initializers;
      var todo := runtimePaths;
      var additions: set<Path> := {};
      while todo != {}
        invariant todo <= runtimePaths == old(runtimePaths)
        invariant additions == set p, q | p in runtimePaths - todo && q in Initializers(t, p) :: q
      {
        var p :| p in todo;
        var found := ClimbPackages(t, p);
        todo, additions := todo - {p}, additions + found;
        InitializersGrow(t, runtimePaths - (todo + {p}), p);
        assert runtimePaths - (todo + {p}) + {p} == runtimePaths - todo;
      }
      assert runtimePaths - todo == runtimePaths;
      runtimePaths := runtimePaths + additions;
    }
  }

  function BoundarySet(scope: Scope, paths: seq<Path>): set<Finding> {
    set p, f | p in paths && f in BoundaryFindings(scope, p) :: f
  }

  lemma InitializersGrow(t: Tree, paths: set<Path>, p: Path)
    ensures (set x, q | x in paths + {p} && q in Initializers(t, x) :: q) ==
              (set x, q | x in paths && q in Initializers(t, x) :: q) + Initializers(t, p)
  {
    hide Initializers;
  }

  /** The climb from a file's directory to the root. */
  method ClimbPackages(t: Tree, p: Path) returns (found: set<Path>)
    ensures found == Initializers(t, p)
  {
    found := {};
    if !HasSuffix(p, ".py") { return; }
    var i := |p|;
    while i > 0
      invariant 0 <= i <= |p|
      invariant found == set j | i <= j < |p| && p[j] == '/' && p[..j + 1] + INIT in t.files :: p[..j + 1] + INIT
    {
      i := i - 1;
      if p[i] == '/' && p[..i + 1] + INIT in t.files { found := found + {p[..i + 1] + INIT}; }
    }
  }

  function Existing(t: Tree, paths: seq<Path>): seq<Path> {
    if paths == [] then [] else
      Existing(t, paths[..|paths| - 1]) + if paths[|paths| - 1] in t.files then [paths[|paths| - 1]] else []
  }

  /** `frontend_references`: what the patterns find, as far as it is there. */
  function LocalReferences(t: Tree, p: Path): seq<Path> {
    Existing(t, t.references(p))
  }

  lemma {:induction false} ExistingAre(t: Tree, paths: seq<Path>)
    ensures Elements(Existing(t, paths)) == set r | r in paths && r in t.files
  {
    if paths != [] {
      var n := |paths| - 1;
      ExistingAre(t, paths[..n]);
      assert paths == paths[..n] + [paths[n]];
      assert forall r :: r in paths <==> r in paths[..n] || r == paths[n];
      if paths[n] in t.files { ElementsAppend(Existing(t, paths[..n]), paths[n]); } else { assert Existing(t, paths) == Existing(t, paths[..n]); }
    }
  }

  lemma ReferencedIs(t: Tree, p: Path)
    ensures Elements(LocalReferences(t, p)) == References(t)(p)
    ensures forall r | r in LocalReferences(t, p) :: r in t.files
  {
    ExistingAre(t, t.references(p));
    assert forall r | r in LocalReferences(t, p) :: r in Elements(LocalReferences(t, p));
  }

  lemma ImportedIs(t: Tree, p: Path)
    ensures Imports(t)(p) == FilesOfModules(t, t.imports(p))
  {
  }

  function FilesOfModules(t: Tree, names: seq<string>): set<Path> {
    set m | m in names && ModuleToPath(t, m).Some? :: ModuleToPath(t, m).value
  }

  lemma NoFiles(t: Tree, names: seq<string>)
    ensures FilesOfModules(t, names[..0]) == {} == Elements([])
  {
  }

  lemma FilesOfModulesStep(t: Tree, names: seq<string>, i: nat)
    requires i < |names|
    ensures ModuleToPath(t, names[i]).Some? ==> ModuleToPath(t, names[i]).value in t.files
    ensures FilesOfModules(t, names[..i + 1]) ==
              FilesOfModules(t, names[..i]) + if ModuleToPath(t, names[i]).Some? then {ModuleToPath(t, names[i]).value} else {}
  {
    assert names[..i + 1] == names[..i] + [names[i]];
  }

  function EdgesOut(p: Path, targets: set<Path>, kind: string): set<Edge> {
    set q | q in targets :: Edge("file:" + p, "file:" + q, kind)
  }

  lemma NoEdgesOut(p: Path, kind: string)
    ensures EdgesOut(p, {}, kind) == {}
  {
  }

  lemma MoreEdgesOut(p: Path, targets: set<Path>, q: Path, kind: string)
    ensures EdgesOut(p, targets + {q}, kind) == EdgesOut(p, targets, kind) + {Edge("file:" + p, "file:" + q, kind)}
  {
  }

  lemma ElementsAppend<T>(s: seq<T>, x: T)
    ensures Elements(s + [x]) == Elements(s) + {x}
  {
  }

  lemma ActionsStep(t: Tree, done: seq<Action>, a: Action)
    ensures var adds := a.Add? && a.path in t.files;
            && (adds <==> ActionIsClean(t, a))
            && Seeds(t, done + [a]) == Seeds(t, done) + (if adds then {a.path} else {})
            && (forall q :: SeedsFor(t, done + [a], q) == SeedsFor(t, done, q) + (if adds && a.queue == q then {a.path} else {}))
            && SeedEdges(t, done + [a]) == SeedEdges(t, done) +
                 (if adds && a.owner != "" then {Edge("registry:" + a.owner, "file:" + a.path, a.kind)} else {})
            && SeedFindings(t, done + [a]) == SeedFindings(t, done) + FindingsOfAction(t, a)
  {
    assert forall b :: b in done + [a] <==> b in done || b == a;
  }

  lemma EdgesOfOne(next: Path -> set<Path>, path: Path, kind: string)
    ensures FileEdges(next, {path}, kind) == EdgesOut(path, next(path), kind)
  {
  }
}
