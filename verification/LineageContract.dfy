/** What a compiled lineage holds, told in terms of the tree and the scope alone: which files the two
    worklists start from, which files, edges, roles and owners come out, and which findings. Nothing
    here uses the seed actions of the compiler or the queues it sorts them into. */
module LineageContract {
  import opened Sorting
  import opened TextOrder
  import opened Closure
  import opened PyText
  import opened Json
  import opened Platform
  import opened Wrappers
  import opened LineageGraph
  import opened LineageCompiler
  import opened LineageEvidence

  // ------------------------------------------------------------------ names

  /** `.suffix == ext`: the extension ends a longer file name. */
  ghost predicate Suffixed(p: Path, ext: string) {
    exists stem :: p == stem + ext && stem != "" && stem[|stem| - 1] != '/'
  }

  /** A lower-case letter or a sign, written in either case. */
  predicate EitherCase(c: char, small: char) {
    c == small || ('a' <= small <= 'z' && 'A' <= c <= 'Z' && c as int + 32 == small as int)
  }

  ghost predicate SuffixedAnyCase(p: Path, ext: string) {
    exists stem, end :: p == stem + end && |end| == |ext| && stem != "" && stem[|stem| - 1] != '/' &&
      forall k | 0 <= k < |ext| :: EitherCase(end[k], ext[k])
  }

  ghost predicate IsPython(p: Path) {
    Suffixed(p, ".py")
  }

  ghost predicate IsPage(p: Path) {
    && !IsPython(p)
    && (SuffixedAnyCase(p, ".html") || SuffixedAnyCase(p, ".js") || SuffixedAnyCase(p, ".mjs") || SuffixedAnyCase(p, ".css"))
  }

  lemma SuffixExactly(p: Path, ext: string)
    ensures HasSuffix(p, ext) <==> Suffixed(p, ext)
  {
    if HasSuffix(p, ext) { assert p == p[..|p| - |ext|] + ext; }
  }

  lemma LowerKeeps(p: Path, k: nat)
    requires k < |p|
    ensures |Lower(p)| == |p| && Lower(p)[k] == LowerChar(p[k]) && (Lower(p)[k] == '/' <==> p[k] == '/')
    ensures forall small :: !('A' <= small <= 'Z') ==> (Lower(p)[k] == small <==> EitherCase(p[k], small))
  {
  }

  lemma LowerSuffixExactly(p: Path, ext: string)
    requires forall c | c in ext :: !('A' <= c <= 'Z')
    ensures HasSuffix(Lower(p), ext) <==> SuffixedAnyCase(p, ext)
  {
    hide LowerChar, EitherCase;
    var n := |p| - |ext|;
    if 0 < n {
      LowerKeeps(p, n - 1);
      forall k | 0 <= k < |ext| ensures Lower(p)[n..][k] == ext[k] <==> EitherCase(p[n..][k], ext[k]) {
        LowerKeeps(p, n + k);
        assert ext[k] in ext;
      }
      assert p == p[..n] + p[n..];
      assert (forall k | 0 <= k < |ext| :: Lower(p)[n..][k] == ext[k]) <==> Lower(p)[n..] == ext;
      StemIs(p, ext);
    } else {
      assert |Lower(p)| == |p|;
    }
  }

  lemma StemIs(p: Path, ext: string)
    requires |ext| < |p|
    ensures var n := |p| - |ext|;
            SuffixedAnyCase(p, ext) <==> p[n - 1] != '/' && forall k | 0 <= k < |ext| :: EitherCase(p[n..][k], ext[k])
  {
    hide EitherCase;
    var n := |p| - |ext|;
    assert p == p[..n] + p[n..];
    if stem, end :| p == stem + end && |end| == |ext| && stem != "" && stem[|stem| - 1] != '/' && forall k | 0 <= k < |ext| :: EitherCase(end[k], ext[k]) {
      assert stem == p[..n] && end == p[n..];
    }
    if p[n - 1] != '/' && forall k | 0 <= k < |ext| :: EitherCase(p[n..][k], ext[k]) {
      var stem := p[..n];
      assert stem[|stem| - 1] == p[n - 1];
    }
  }

  lemma QueueExactly(p: Path)
    ensures QueueFor(p) == PythonQueue <==> IsPython(p)
    ensures QueueFor(p) == FrontendQueue <==> IsPage(p)
  {
    hide HasSuffix, Lower, Suffixed, SuffixedAnyCase;
    SuffixExactly(p, ".py");
    LowerSuffixExactly(p, ".html");
    LowerSuffixExactly(p, ".js");
    LowerSuffixExactly(p, ".mjs");
    LowerSuffixExactly(p, ".css");
  }

  /** The module's file: the module itself if it is there, else its package's initialiser. */
  ghost predicate Resolves(t: Tree, name: string, p: Path) {
    && p in t.files
    && (p == t.modulePath(name) || (t.modulePath(name) !in t.files && p == t.packagePath(name)))
  }

  lemma ResolvesExactly(t: Tree, name: string, p: Path)
    ensures ModuleToPath(t, name) == Some(p) <==> Resolves(t, name, p)
  {
  }

  /** `module:symbol`, where the module has a file. */
  ghost predicate EntryAt(t: Tree, entry: string, p: Path, symbol: string) {
    exists name :: entry == name + ":" + symbol && ':' !in name && name != "" && symbol != "" && Resolves(t, name, p)
  }

  lemma {:induction false} ColonIs(s: string)
    ensures ':' !in s[..ColonAt(s)] && (ColonAt(s) < |s| ==> s[ColonAt(s)] == ':')
  {
    if s != "" && s[0] != ':' {
      ColonIs(s[1..]);
      assert s[..ColonAt(s)] == [s[0]] + s[1..][..ColonAt(s[1..])];
    }
  }

  lemma SplitEntryExactly(s: string, name: string, symbol: string)
    ensures SplitEntry(s) == Some((name, symbol)) <==> s == name + ":" + symbol && ':' !in name && name != "" && symbol != ""
  {
    ColonIs(s);
    var n := ColonAt(s);
    if SplitEntry(s) == Some((name, symbol)) {
      assert s == s[..n] + [s[n]] + s[n + 1..];
    }
    if s == name + ":" + symbol && ':' !in name && name != "" && symbol != "" {
      assert s[|name|] == ':';
      assert forall k | 0 <= k < |name| :: s[k] == name[k] && name[k] in name;
      assert forall k | 0 <= k < n :: s[k] == s[..n][k];
      assert s[..n] == name && s[n + 1..] == symbol;
    }
  }

  // ------------------------------------------------------------------ the declarations of the scope

  /** A required module, with its declaration. */
  ghost predicate Required(i: Inputs, m: string) {
    m in i.scope.requiredModules && m in i.scope.modules && i.scope.modules[m].ModuleDecl?
  }

  function RunnerOf(i: Inputs, m: string): string
    requires m in i.scope.modules && i.scope.modules[m].ModuleDecl?
  {
    var raw := i.scope.modules[m].rawRunner;
    if raw.Str? then raw.s else TextOrEmpty(raw)
  }

  ghost predicate IsEntrypoint(i: Inputs, p: Path) {
    exists e, symbol :: e in i.scope.entrypoints && EntryAt(i.tree, e, p, symbol)
  }

  /** A required module declares the file as its own. */
  ghost predicate Implements(i: Inputs, m: string, p: Path) {
    Required(i, m) && p in i.scope.modules[m].paths
  }

  /** A required module's runner is in the file. */
  ghost predicate Runs(i: Inputs, m: string, p: Path) {
    Required(i, m) && exists symbol :: EntryAt(i.tree, RunnerOf(i, m), p, symbol)
  }

  ghost predicate Globbed(i: Inputs, g: string, p: Path) {
    g in i.scope.seedGlobs && p in i.tree.glob(g)
  }

  /** The file is named as a fixed seed, by a seed glob, or by a required module's declaration. */
  ghost predicate Named(i: Inputs, p: Path) {
    p in i.scope.seedFiles || (exists g :: Globbed(i, g, p)) || exists m :: Implements(i, m, p)
  }

  /** The file is that of a production entrypoint, or of a required module's runner. */
  ghost predicate EntryFile(i: Inputs, p: Path) {
    IsEntrypoint(i, p) || exists m :: Runs(i, m, p)
  }

  ghost predicate PythonStart(i: Inputs, p: Path) {
    p in i.tree.files && ((Named(i, p) && IsPython(p)) || EntryFile(i, p))
  }

  ghost predicate PageStart(i: Inputs, p: Path) {
    p in i.tree.files && ((Named(i, p) && IsPage(p)) || p in i.scope.staticRoots)
  }

  ghost predicate Seed(i: Inputs, p: Path) {
    p in i.tree.files && (Named(i, p) || EntryFile(i, p) || p in i.scope.staticRoots)
  }

  // ------------------------------------------------------------------ the seed actions, one by one

  ghost predicate EntryAction(t: Tree, entry: string, role: string, owner: string, kind: string, bad: LineageCompiler.Finding, a: Action) {
    || (a == Report(bad) && !exists p, symbol :: EntryAt(t, entry, p, symbol))
    || exists p, symbol :: EntryAt(t, entry, p, symbol) &&
         (a == Add(p, role, PythonQueue, owner, kind) || (a == Report(SymbolMissing(entry)) && symbol !in t.symbols(p)))
  }

  lemma EntryActionsExactly(t: Tree, entry: string, role: string, owner: string, kind: string, bad: LineageCompiler.Finding, a: Action)
    ensures a in EntryActions(t, entry, role, owner, kind, bad) <==> EntryAction(t, entry, role, owner, kind, bad, a)
  {
    hide SplitEntry, ModuleToPath, EntryAt;
    EntryIs(t, entry);
    var parts := SplitEntry(entry);
    if parts.Some? && ModuleToPath(t, parts.value.0).Some? {
      var file := ModuleToPath(t, parts.value.0).value;
      assert EntryAt(t, entry, file, parts.value.1);
    }
  }

  /** The parts of an entry and its file are one only. */
  lemma EntryIs(t: Tree, entry: string)
    ensures forall p, symbol :: EntryAt(t, entry, p, symbol) <==>
              (SplitEntry(entry).Some? && SplitEntry(entry).value.1 == symbol && ModuleToPath(t, SplitEntry(entry).value.0) == Some(p))
  {
    hide SplitEntry, ModuleToPath;
    forall p, symbol ensures EntryAt(t, entry, p, symbol) <==>
        (SplitEntry(entry).Some? && SplitEntry(entry).value.1 == symbol && ModuleToPath(t, SplitEntry(entry).value.0) == Some(p)) {
      if EntryAt(t, entry, p, symbol) {
        var name :| entry == name + ":" + symbol && ':' !in name && name != "" && symbol != "" && Resolves(t, name, p);
        SplitEntryExactly(entry, name, symbol);
        ResolvesExactly(t, name, p);
      }
      if SplitEntry(entry).Some? && SplitEntry(entry).value.1 == symbol && ModuleToPath(t, SplitEntry(entry).value.0) == Some(p) {
        SplitEntryExactly(entry, SplitEntry(entry).value.0, symbol);
        ResolvesExactly(t, SplitEntry(entry).value.0, p);
      }
    }
  }

  lemma {:induction false} EntrypointsExactly(t: Tree, entries: seq<string>, a: Action)
    ensures a in EntrypointActions(t, entries) <==>
              exists e :: e in entries && EntryAction(t, e, "production_entrypoint", "", "", BadEntrypoint(e), a)
  {
    hide EntryActions, EntryAction;
    if entries != [] {
      EntryActionsExactly(t, entries[0], "production_entrypoint", "", "", BadEntrypoint(entries[0]), a);
      EntrypointsExactly(t, entries[1..], a);
      assert forall e :: e in entries <==> e == entries[0] || e in entries[1..];
    }
  }

  ghost predicate GlobAction(t: Tree, g: string, a: Action) {
    || (a == Report(GlobEmpty(g)) && t.glob(g) == [])
    || exists p :: p in t.glob(g) && a == Add(p, "fixed_runtime_glob:" + g, QueueFor(p), "", "")
  }

  lemma {:induction false} GlobsExactly(t: Tree, patterns: seq<string>, a: Action)
    ensures a in GlobActions(t, patterns) <==> exists g :: g in patterns && GlobAction(t, g, a)
  {
    hide QueueFor, GlobAction;
    if patterns != [] {
      OneGlob(t, patterns[0], a);
      GlobsExactly(t, patterns[1..], a);
      assert forall g :: g in patterns <==> g == patterns[0] || g in patterns[1..];
    }
  }

  lemma OneGlob(t: Tree, g: string, a: Action)
    ensures var matches := t.glob(g);
            (a in (if matches == [] then [Report(GlobEmpty(g))] else []) +
                  seq(|matches|, k requires 0 <= k < |matches| => Add(matches[k], "fixed_runtime_glob:" + g, QueueFor(matches[k]), "", ""))) <==>
            GlobAction(t, g, a)
  {
    hide QueueFor;
    var matches := t.glob(g);
    var adds := seq(|matches|, k requires 0 <= k < |matches| => Add(matches[k], "fixed_runtime_glob:" + g, QueueFor(matches[k]), "", ""));
    if p :| p in matches && a == Add(p, "fixed_runtime_glob:" + g, QueueFor(p), "", "") {
      var k :| 0 <= k < |matches| && matches[k] == p;
      assert adds[k] == a;
    }
  }

  lemma FilesExactly(paths: seq<Path>, a: Action)
    ensures a in FileActions(paths) <==> exists p :: p in paths && a == Add(p, "fixed_runtime_seed", QueueFor(p), "", "")
    ensures a in RootActions(paths) <==> exists p :: p in paths && a == Add(p, "frontend_root", FrontendQueue, "", "")
  {
    hide QueueFor;
    if p :| p in paths && a == Add(p, "fixed_runtime_seed", QueueFor(p), "", "") {
      var k :| 0 <= k < |paths| && paths[k] == p;
      assert FileActions(paths)[k] == a;
    }
    if p :| p in paths && a == Add(p, "frontend_root", FrontendQueue, "", "") {
      var k :| 0 <= k < |paths| && paths[k] == p;
      assert RootActions(paths)[k] == a;
    }
  }

  ghost predicate ModuleAction(t: Tree, scope: Scope, m: string, a: Action) {
    || (a == Report(RequiredModuleMissing(m)) && m !in scope.modules)
    || (m in scope.modules && scope.modules[m].ModuleDecl? &&
         var decl := scope.modules[m];
         || (exists p :: p in decl.paths && a == Add(p, "registry_implementation", QueueFor(p), m, "REGISTRY_OWNS"))
         || (a == Report(RunnerMissing(m)) && TextOrEmpty(decl.rawRunner) == "")
         || (TextOrEmpty(decl.rawRunner) != "" && EntryAction(t, TextOrEmpty(decl.rawRunner), "registry_runner", m, "RUNS", BadRunner(m), a)))
  }

  lemma {:induction false} ModulesExactly(t: Tree, scope: Scope, ids: seq<string>, a: Action)
    ensures a in ModuleActions(t, scope, ids) <==> exists m :: m in ids && ModuleAction(t, scope, m, a)
  {
    hide ModuleAction;
    if ids != [] {
      ModulesExactly(t, scope, ids[1..], a);
      OneModuleExactly(t, scope, ids, a);
      assert forall m :: m in ids <==> m == ids[0] || m in ids[1..];
    }
  }

  lemma OneModuleExactly(t: Tree, scope: Scope, ids: seq<string>, a: Action)
    requires ids != []
    ensures a in ModuleActions(t, scope, ids) <==> ModuleAction(t, scope, ids[0], a) || a in ModuleActions(t, scope, ids[1..])
  {
    hide QueueFor, SortText, EntryActions, EntryAction, TextOrEmpty;
    var m := ids[0];
    if m in scope.modules && scope.modules[m].ModuleDecl? {
      var decl := scope.modules[m];
      var paths := SortText(decl.paths);
      EntryActionsExactly(t, TextOrEmpty(decl.rawRunner), "registry_runner", m, "RUNS", BadRunner(m), a);
      var adds := seq(|paths|, k requires 0 <= k < |paths| => Add(paths[k], "registry_implementation", QueueFor(paths[k]), m, "REGISTRY_OWNS"));
      ImplementationsExactly(paths, m, a, adds);
      assert forall p :: p in paths <==> p in Elements(paths);
    }
  }

  lemma ImplementationsExactly(paths: seq<Path>, m: string, a: Action, adds: seq<Action>)
    requires adds == seq(|paths|, k requires 0 <= k < |paths| => Add(paths[k], "registry_implementation", QueueFor(paths[k]), m, "REGISTRY_OWNS"))
    ensures a in adds <==> exists p :: p in paths && a == Add(p, "registry_implementation", QueueFor(p), m, "REGISTRY_OWNS")
  {
    hide QueueFor;
    if p :| p in paths && a == Add(p, "registry_implementation", QueueFor(p), m, "REGISTRY_OWNS") {
      var k :| 0 <= k < |paths| && paths[k] == p;
      assert adds[k] == a;
    }
  }

  /** All seed actions. */
  lemma SeedingExactly(i: Inputs, a: Action)
    ensures a in Seeding(i) <==>
              || (a == Report(RegistryHashMismatch) && i.scope.expectedRegistryHash != "" && i.scope.actualRegistryHash != i.scope.expectedRegistryHash)
              || (a == Report(EntrypointCount) && |i.scope.entrypoints| != 1)
              || (exists e :: e in i.scope.entrypoints && EntryAction(i.tree, e, "production_entrypoint", "", "", BadEntrypoint(e), a))
              || (exists p :: p in i.scope.seedFiles && a == Add(p, "fixed_runtime_seed", QueueFor(p), "", ""))
              || (exists g :: g in i.scope.seedGlobs && GlobAction(i.tree, g, a))
              || (exists p :: p in i.scope.staticRoots && a == Add(p, "frontend_root", FrontendQueue, "", ""))
              || exists m :: m in i.scope.requiredModules && ModuleAction(i.tree, i.scope, m, a)
  {
    hide EntryAction, GlobAction, ModuleAction, EntrypointActions, FileActions, GlobActions, RootActions, ModuleActions, QueueFor;
    EntrypointsExactly(i.tree, i.scope.entrypoints, a);
    FilesExactly(i.scope.seedFiles, a);
    GlobsExactly(i.tree, i.scope.seedGlobs, a);
    FilesExactly(i.scope.staticRoots, a);
    ModulesExactly(i.tree, i.scope, i.scope.requiredModules, a);
  }

  // ------------------------------------------------------------------ where the worklists start

  /** A seed action that adds the file. */
  ghost predicate Adds(i: Inputs, p: Path, a: Action) {
    a in Seeding(i) && a.Add? && a.path == p
  }

  /** Which additions of a file there are. */
  ghost predicate AddCase(i: Inputs, p: Path, a: Action) {
    || (a == Add(p, "production_entrypoint", PythonQueue, "", "") && IsEntrypoint(i, p))
    || (a == Add(p, "fixed_runtime_seed", QueueFor(p), "", "") && p in i.scope.seedFiles)
    || (exists g :: Globbed(i, g, p) && a == Add(p, "fixed_runtime_glob:" + g, QueueFor(p), "", ""))
    || (a == Add(p, "frontend_root", FrontendQueue, "", "") && p in i.scope.staticRoots)
    || (exists m :: Implements(i, m, p) && a == Add(p, "registry_implementation", QueueFor(p), m, "REGISTRY_OWNS"))
    || (exists m :: Runs(i, m, p) && a == Add(p, "registry_runner", PythonQueue, m, "RUNS"))
  }

  lemma AddsExactly(i: Inputs, p: Path, a: Action)
    ensures Adds(i, p, a) <==> AddCase(i, p, a)
  {
    hide QueueFor, EntryAt, TextOrEmpty, Seeding;
    SeedingExactly(i, a);
    RunnerIsText(i);
    NoEntryInNothing(i.tree);
  }

  lemma RunnerIsText(i: Inputs)
    ensures forall m | m in i.scope.modules && i.scope.modules[m].ModuleDecl? :: RunnerOf(i, m) == TextOrEmpty(i.scope.modules[m].rawRunner)
  {
  }

  lemma NoEntryInNothing(t: Tree)
    ensures forall p, symbol :: !EntryAt(t, "", p, symbol)
  {
    forall p, symbol ensures !EntryAt(t, "", p, symbol) {
      forall name: string ensures "" != name + ":" + symbol { assert |name + ":" + symbol| > 0; }
    }
  }

  lemma CasesAre(i: Inputs, p: Path)
    ensures IsEntrypoint(i, p) ==> AddCase(i, p, Add(p, "production_entrypoint", PythonQueue, "", ""))
    ensures p in i.scope.seedFiles ==> AddCase(i, p, Add(p, "fixed_runtime_seed", QueueFor(p), "", ""))
    ensures p in i.scope.staticRoots ==> AddCase(i, p, Add(p, "frontend_root", FrontendQueue, "", ""))
  {
    hide QueueFor, IsEntrypoint, Implements, Runs, Globbed;
  }

  lemma GlobCase(i: Inputs, p: Path, g: string)
    requires Globbed(i, g, p)
    ensures AddCase(i, p, Add(p, "fixed_runtime_glob:" + g, QueueFor(p), "", ""))
  {
    hide QueueFor, IsEntrypoint, Implements, Runs, Globbed;
  }

  lemma ModuleCases(i: Inputs, p: Path, m: string)
    ensures Implements(i, m, p) ==> AddCase(i, p, Add(p, "registry_implementation", QueueFor(p), m, "REGISTRY_OWNS"))
    ensures Runs(i, m, p) ==> AddCase(i, p, Add(p, "registry_runner", PythonQueue, m, "RUNS"))
  {
    hide QueueFor, IsEntrypoint, Implements, Runs, Globbed;
  }

  /** Into which queue a file is put. */
  lemma QueuedExactly(i: Inputs, p: Path, q: Queue)
    ensures (exists a :: AddCase(i, p, a) && a.queue == q) <==>
              || (q == PythonQueue && EntryFile(i, p)) || (Named(i, p) && QueueFor(p) == q) || (q == FrontendQueue && p in i.scope.staticRoots)
  {
    hide QueueFor, IsEntrypoint, Implements, Runs, Globbed, AddCase;
    CasesAre(i, p);
    if q == PythonQueue && EntryFile(i, p) && !IsEntrypoint(i, p) { var m :| Runs(i, m, p); ModuleCases(i, p, m); }
    if Named(i, p) && p !in i.scope.seedFiles {
      if g :| Globbed(i, g, p) { GlobCase(i, p, g); } else { var m :| Implements(i, m, p); ModuleCases(i, p, m); }
    }
    AllAdd(i, p);
    if a :| AddCase(i, p, a) && a.Add? && a.queue == q { QueuedBy(i, p, a); }
  }

  lemma AllAdd(i: Inputs, p: Path)
    ensures forall a | AddCase(i, p, a) :: a.Add?
  {
  }

  lemma QueuedBy(i: Inputs, p: Path, a: Action)
    requires AddCase(i, p, a)
    ensures || (a.queue == PythonQueue && EntryFile(i, p)) || (Named(i, p) && QueueFor(p) == a.queue) || (a.queue == FrontendQueue && p in i.scope.staticRoots)
  {
    hide QueueFor, IsEntrypoint, Implements, Runs, Globbed;
  }

  /** The worklists start from these files and no others. */
  lemma StartsExactly(i: Inputs, p: Path)
    ensures p in SeedsFor(i.tree, Seeding(i), PythonQueue) <==> PythonStart(i, p)
    ensures p in SeedsFor(i.tree, Seeding(i), FrontendQueue) <==> PageStart(i, p)
    ensures p in Seeds(i.tree, Seeding(i)) <==> Seed(i, p)
  {
    hide QueueFor, Seeding, IsPython, IsPage, Named, EntryFile, AddCase;
    QueueExactly(p);
    QueuedExactly(i, p, PythonQueue);
    QueuedExactly(i, p, FrontendQueue);
    QueuedExactly(i, p, NoQueue);
    StartsFrom(i, p);
  }

  lemma StartsFrom(i: Inputs, p: Path)
    ensures forall q :: p in SeedsFor(i.tree, Seeding(i), q) <==> p in i.tree.files && exists a :: AddCase(i, p, a) && a.queue == q
    ensures p in Seeds(i.tree, Seeding(i)) <==> p in i.tree.files && exists a :: AddCase(i, p, a)
    ensures forall a | AddCase(i, p, a) :: a.Add?
  {
    hide Seeding, AddCase;
    forall a ensures Adds(i, p, a) <==> AddCase(i, p, a) { AddsExactly(i, p, a); }
    if a :| AddCase(i, p, a) { assert Adds(i, p, a); }
    if p in Seeds(i.tree, Seeding(i)) {
      var a :| a in Seeding(i) && a.Add? && a.path in i.tree.files && a.path == p;
      assert Adds(i, p, a);
    }
  }

  // ------------------------------------------------------------------ the closures and the runtime

  /** The least set that holds the Python starts and whatever its members import. */
  ghost predicate ImportClosure(i: Inputs, py: set<Path>) {
    Follows(i, py) && forall s | Follows(i, s) :: py <= s
  }

  ghost predicate Follows(i: Inputs, s: set<Path>) {
    && (forall p :: PythonStart(i, p) ==> p in s)
    && forall p, name, q | p in s && name in i.tree.imports(p) && Resolves(i.tree, name, q) :: q in s
  }

  /** The least set that holds the page starts and whatever existing files its members refer to. */
  ghost predicate ReferenceClosure(i: Inputs, fe: set<Path>) {
    Refers(i, fe) && forall s | Refers(i, s) :: fe <= s
  }

  ghost predicate Refers(i: Inputs, s: set<Path>) {
    && (forall p :: PageStart(i, p) ==> p in s)
    && forall p, q | p in s && q in i.tree.references(p) && q in i.tree.files :: q in s
  }

  lemma FollowsExactly(i: Inputs, s: set<Path>)
    ensures Follows(i, s) <==> SeedsFor(i.tree, Seeding(i), PythonQueue) <= s && ClosedUnder(Imports(i.tree), s)
  {
    hide PythonStart, Seeding, SeedsFor, ModuleToPath;
    forall p ensures p in SeedsFor(i.tree, Seeding(i), PythonQueue) <==> PythonStart(i, p) { StartsExactly(i, p); }
    forall name, p ensures ModuleToPath(i.tree, name) == Some(p) <==> Resolves(i.tree, name, p) { ResolvesExactly(i.tree, name, p); }
    hide Resolves;
    forall p ensures Imports(i.tree)(p) == FilesOfModules(i.tree, i.tree.imports(p)) { ImportedIs(i.tree, p); }
    forall p, q ensures q in FilesOfModules(i.tree, i.tree.imports(p)) <==> exists name :: name in i.tree.imports(p) && Resolves(i.tree, name, q) {}
  }

  lemma RefersExactly(i: Inputs, s: set<Path>)
    ensures Refers(i, s) <==> SeedsFor(i.tree, Seeding(i), FrontendQueue) <= s && ClosedUnder(References(i.tree), s)
  {
    hide PageStart, Seeding, SeedsFor;
    forall p ensures p in SeedsFor(i.tree, Seeding(i), FrontendQueue) <==> PageStart(i, p) { StartsExactly(i, p); }
    forall p ensures References(i.tree)(p) == Referenced(i.tree, p) {}
  }

  /** In every lineage, the two worklists have computed exactly these closures. */
  lemma ClosuresExactly(pf: Platform, i: Inputs, py: set<Path>, fe: set<Path>, c: Compiled)
    requires IsLineage(pf, i, py, fe, c)
    ensures ImportClosure(i, py) && ReferenceClosure(i, fe)
  {
    hide RuntimePaths, Assembled, AllEdges, AllFindings, RecordsAt, SortText, Follows, Refers, SeedsFor, Seeding, ClosedUnder;
    forall s ensures Follows(i, s) <==> SeedsFor(i.tree, Seeding(i), PythonQueue) <= s && ClosedUnder(Imports(i.tree), s) { FollowsExactly(i, s); }
    forall s ensures Refers(i, s) <==> SeedsFor(i.tree, Seeding(i), FrontendQueue) <= s && ClosedUnder(References(i.tree), s) { RefersExactly(i, s); }
  }

  /** A seed, or a file that a worklist visited. */
  ghost predicate Found(i: Inputs, py: set<Path>, fe: set<Path>, p: Path) {
    Seed(i, p) || p in py || p in fe
  }

  /** The initialiser of a package above the file. */
  ghost predicate InitialiserOf(q: Path, p: Path) {
    exists dir, rest :: q == dir + "/" + rest && p == dir + "/" + "__init__.py"
  }

  lemma InitialisersExactly(t: Tree, q: Path, p: Path)
    ensures p in Initializers(t, q) <==> IsPython(q) && InitialiserOf(q, p) && p in t.files
  {
    hide HasSuffix, Suffixed;
    SuffixExactly(q, ".py");
    if p in Initializers(t, q) {
      var k :| 0 <= k < |q| && q[k] == '/' && p == q[..k + 1] + "__init__.py";
      assert q == q[..k] + "/" + q[k + 1..] && q[..k + 1] == q[..k] + "/";
    }
    if dir, rest :| q == dir + "/" + rest && p == dir + "/" + "__init__.py" {
      assert q[..|dir| + 1] == dir + "/" && q[|dir|] == '/';
    }
  }

  /** The runtime: what was found, and the existing initialisers above its Python files. */
  lemma RuntimeExactly(pf: Platform, i: Inputs, py: set<Path>, fe: set<Path>, c: Compiled, p: Path)
    requires IsLineage(pf, i, py, fe, c)
    ensures p in RuntimePaths(i, py, fe) <==>
              Found(i, py, fe, p) || (p in i.tree.files && exists q :: Found(i, py, fe, q) && IsPython(q) && InitialiserOf(q, p))
  {
    hide IsLineage, IsPython, InitialiserOf, Seeds, Seeding, Seed, Initializers;
    forall q ensures q in Seeds(i.tree, Seeding(i)) <==> Seed(i, q) { StartsExactly(i, q); }
    forall q ensures p in Initializers(i.tree, q) <==> IsPython(q) && InitialiserOf(q, p) && p in i.tree.files { InitialisersExactly(i.tree, q, p); }
  }

  // ------------------------------------------------------------------ owners, roles, edges

  /** A required module with a name declares the file, or runs it. */
  ghost predicate OwnedBy(i: Inputs, p: Path, m: string) {
    m != "" && p in i.tree.files && (Implements(i, m, p) || Runs(i, m, p))
  }

  lemma OwnersExactly(i: Inputs, p: Path, m: string)
    ensures m in SeedOwners(i.tree, Seeding(i), p) <==> OwnedBy(i, p, m)
  {
    hide QueueFor, Seeding, AddCase, Implements, Runs;
    forall a ensures Adds(i, p, a) <==> AddCase(i, p, a) { AddsExactly(i, p, a); }
    if m != "" { OwnerCases(i, p, m); }
    assert m in SeedOwners(i.tree, Seeding(i), p) <==> m != "" && p in i.tree.files && exists a :: Adds(i, p, a) && a.owner == m;
  }

  lemma OwnerCases(i: Inputs, p: Path, m: string)
    requires m != ""
    ensures (exists a :: AddCase(i, p, a) && a.owner == m) <==> Implements(i, m, p) || Runs(i, m, p)
  {
    hide QueueFor, IsEntrypoint, Implements, Runs, Globbed, AddCase;
    ModuleCases(i, p, m);
    AllAdd(i, p);
    if a :| AddCase(i, p, a) && a.Add? && a.owner == m { OwnerBy(i, p, a); }
  }

  lemma OwnerBy(i: Inputs, p: Path, a: Action)
    requires AddCase(i, p, a) && a.owner != ""
    ensures Implements(i, a.owner, p) || Runs(i, a.owner, p)
  {
    hide QueueFor, IsEntrypoint, Implements, Runs, Globbed;
  }

  ghost predicate SeedRole(i: Inputs, p: Path, role: string) {
    || (IsEntrypoint(i, p) && role == "production_entrypoint")
    || (p in i.scope.seedFiles && role == "fixed_runtime_seed")
    || (exists g :: Globbed(i, g, p) && role == "fixed_runtime_glob:" + g)
    || (p in i.scope.staticRoots && role == "frontend_root")
    || ((exists m :: Implements(i, m, p)) && role == "registry_implementation")
    || ((exists m :: Runs(i, m, p)) && role == "registry_runner")
  }

  /** The role that a file has. */
  ghost predicate RoleDue(i: Inputs, py: set<Path>, fe: set<Path>, p: Path, role: string) {
    || (p in py && role == "python_import_closure") || (p in fe && role == "frontend_reference_closure")
    || (p in i.tree.files && SeedRole(i, p, role))
  }

  lemma RolesExactly(i: Inputs, py: set<Path>, fe: set<Path>, p: Path, role: string)
    ensures role in RolesAt(i, py, fe, p) <==> RoleDue(i, py, fe, p, role)
  {
    hide QueueFor, Seeding, AddCase, SeedRole;
    forall a ensures Adds(i, p, a) <==> AddCase(i, p, a) { AddsExactly(i, p, a); }
    assert role in SeedRoles(i.tree, Seeding(i), p) <==> p in i.tree.files && exists a :: Adds(i, p, a) && a.role == role;
    RoleCases(i, p, role);
  }

  lemma RoleCases(i: Inputs, p: Path, role: string)
    ensures (exists a :: AddCase(i, p, a) && a.role == role) <==> SeedRole(i, p, role)
  {
    hide QueueFor, IsEntrypoint, Implements, Runs, Globbed, AddCase;
    CasesAre(i, p);
    if g :| Globbed(i, g, p) && role == "fixed_runtime_glob:" + g { GlobCase(i, p, g); }
    if m :| Implements(i, m, p) { ModuleCases(i, p, m); }
    if m :| Runs(i, m, p) { ModuleCases(i, p, m); }
    AllAdd(i, p);
    if a :| AddCase(i, p, a) && a.Add? && a.role == role { RoleBy(i, p, a); }
  }

  lemma RoleBy(i: Inputs, p: Path, a: Action)
    requires AddCase(i, p, a)
    ensures SeedRole(i, p, a.role)
  {
    hide QueueFor, IsEntrypoint, Implements, Runs, Globbed;
  }

  /** The edges that a lineage shows: ownership, imports, references, and those of the governance compiler. */
  ghost predicate EdgeDue(i: Inputs, py: set<Path>, fe: set<Path>, e: Edge) {
    || (exists m, p :: m != "" && p in i.tree.files && Implements(i, m, p) && e == Edge("registry:" + m, "file:" + p, "REGISTRY_OWNS"))
    || (exists m, p :: m != "" && p in i.tree.files && Runs(i, m, p) && e == Edge("registry:" + m, "file:" + p, "RUNS"))
    || (exists p, name, q :: p in py && name in i.tree.imports(p) && Resolves(i.tree, name, q) && e == Edge("file:" + p, "file:" + q, "IMPORTS"))
    || (exists p, q :: p in fe && q in i.tree.references(p) && q in i.tree.files && e == Edge("file:" + p, "file:" + q, "REFERENCES"))
    || e in i.governance(RuntimePaths(i, py, fe)).edges
  }

  lemma EdgesExactly(i: Inputs, py: set<Path>, fe: set<Path>, e: Edge)
    ensures e in AllEdges(i, py, fe) <==> EdgeDue(i, py, fe, e)
  {
    hide Seeding, SeedEdges, FileEdges, Imports, References, RuntimePaths, Implements, Runs, Resolves;
    SeedEdgesExactly(i, e);
    ImportEdgesExactly(i, py, e);
    ReferenceEdgesExactly(i, fe, e);
  }

  lemma SeedEdgesExactly(i: Inputs, e: Edge)
    ensures e in SeedEdges(i.tree, Seeding(i)) <==>
              || (exists m, p :: m != "" && p in i.tree.files && Implements(i, m, p) && e == Edge("registry:" + m, "file:" + p, "REGISTRY_OWNS"))
              || (exists m, p :: m != "" && p in i.tree.files && Runs(i, m, p) && e == Edge("registry:" + m, "file:" + p, "RUNS"))
  {
    hide QueueFor, Seeding, Implements, Runs, Globbed, IsEntrypoint;
    if e in SeedEdges(i.tree, Seeding(i)) {
      var a :| a in Seeding(i) && a.Add? && a.path in i.tree.files && a.owner != "" && e == Edge("registry:" + a.owner, "file:" + a.path, a.kind);
      assert Adds(i, a.path, a);
      AddsExactly(i, a.path, a);
    }
    if m, p :| m != "" && p in i.tree.files && Implements(i, m, p) && e == Edge("registry:" + m, "file:" + p, "REGISTRY_OWNS") {
      AddsExactly(i, p, Add(p, "registry_implementation", QueueFor(p), m, "REGISTRY_OWNS"));
    }
    if m, p :| m != "" && p in i.tree.files && Runs(i, m, p) && e == Edge("registry:" + m, "file:" + p, "RUNS") {
      AddsExactly(i, p, Add(p, "registry_runner", PythonQueue, m, "RUNS"));
    }
  }

  lemma ImportEdgesExactly(i: Inputs, py: set<Path>, e: Edge)
    ensures e in FileEdges(Imports(i.tree), py, "IMPORTS") <==>
              exists p, name, q :: p in py && name in i.tree.imports(p) && Resolves(i.tree, name, q) && e == Edge("file:" + p, "file:" + q, "IMPORTS")
  {
    hide ModuleToPath;
    forall name, p ensures ModuleToPath(i.tree, name) == Some(p) <==> Resolves(i.tree, name, p) { ResolvesExactly(i.tree, name, p); }
    hide Resolves;
  }

  lemma ReferenceEdgesExactly(i: Inputs, fe: set<Path>, e: Edge)
    ensures e in FileEdges(References(i.tree), fe, "REFERENCES") <==>
              exists p, q :: p in fe && q in i.tree.references(p) && q in i.tree.files && e == Edge("file:" + p, "file:" + q, "REFERENCES")
  {
  }

  // ------------------------------------------------------------------ findings

  ghost predicate EntryBroken(t: Tree, entry: string) {
    forall p, symbol :: !EntryAt(t, entry, p, symbol)
  }

  ghost predicate SymbolGone(t: Tree, entry: string) {
    exists p, symbol :: EntryAt(t, entry, p, symbol) && symbol !in t.symbols(p)
  }

  /** Some seed names the file. */
  ghost predicate Wanted(i: Inputs, p: Path) {
    Named(i, p) || p in i.scope.staticRoots
  }

  /** The path less its trailing slashes is the other path. */
  ghost predicate LessSlashes(prefix: string, p: Path) {
    p <= prefix && (p == "" || p[|p| - 1] != '/') && forall k | |p| <= k < |prefix| :: prefix[k] == '/'
  }

  /** The file's name, behind the last slash. */
  ghost predicate NameIs(p: Path, name: string) {
    '/' !in name && (p == name || exists dir :: p == dir + "/" + name)
  }

  /** A finding that a lineage has to report. */
  ghost predicate FindingDue(i: Inputs, py: set<Path>, fe: set<Path>, f: LineageCompiler.Finding) {
    var runtime := RuntimePaths(i, py, fe);
    match f
    case RegistryHashMismatch => i.scope.expectedRegistryHash != "" && i.scope.actualRegistryHash != i.scope.expectedRegistryHash
    case EntrypointCount => |i.scope.entrypoints| != 1
    case RequiredModuleMissing(m) => m in i.scope.requiredModules && m !in i.scope.modules
    case BadEntrypoint(e) => e in i.scope.entrypoints && EntryBroken(i.tree, e)
    case SymbolMissing(e) =>
      (e in i.scope.entrypoints || exists m :: Required(i, m) && RunnerOf(i, m) == e) && SymbolGone(i.tree, e)
    case GlobEmpty(g) => g in i.scope.seedGlobs && i.tree.glob(g) == []
    case FileMissing(p) => p !in i.tree.files && Wanted(i, p)
    case ImplementationMissing(m, p) => m != "" && p !in i.tree.files && Implements(i, m, p)
    case RunnerMissing(m) => Required(i, m) && RunnerOf(i, m) == ""
    case BadRunner(m) => Required(i, m) && RunnerOf(i, m) != "" && EntryBroken(i.tree, RunnerOf(i, m))
    case ImportProblem(text) => exists p :: p in py && text in i.tree.importFindings(p)
    case GovernanceProblem(text) => text in i.governance(runtime).findings
    case ForbiddenName(p) => p in runtime && exists name :: NameIs(p, name) && name in i.scope.forbiddenNames
    case PrivateBoundary(p) => p in runtime && exists prefix :: prefix in i.scope.forbiddenPrefixes && (prefix <= p || LessSlashes(prefix, p))
    case OutsideAllowlist(p) =>
      && p in runtime && i.scope.allowedPrefixes != []
      && !exists prefix :: prefix in i.scope.allowedPrefixes && (p == prefix || (prefix != "" && prefix[|prefix| - 1] == '/' && prefix <= p))
    case ShadowEntrypoints(names) => i.scope.failOnShadow && names != [] && names == Names(ShadowsOf(i))
  }

  /** The shadow entrypoints are the application objects that the scope does not declare. */
  lemma {:induction false} ShadowsExactly(apps: seq<AppEntrypoint>, declared: seq<string>, name: string)
    ensures name in Names(Shadows(apps, declared)) <==> name !in declared && exists app :: app in apps && app.entrypoint == name
  {
    if apps != [] {
      ShadowsExactly(apps[1..], declared, name);
      var first := if apps[0].entrypoint in declared then [] else [apps[0].entrypoint];
      assert Names(Shadows(apps, declared)) == first + Names(Shadows(apps[1..], declared));
      assert forall app :: app in apps <==> app == apps[0] || app in apps[1..];
    }
  }

  // ------------------------------------------------------------------ the findings, one by one

  lemma SeedFindingsExactly(i: Inputs, f: LineageCompiler.Finding)
    ensures f in SeedFindings(i.tree, Seeding(i)) <==>
              || Report(f) in Seeding(i)
              || (f.FileMissing? && f.path !in i.tree.files && exists a :: Adds(i, f.path, a))
              || (f.ImplementationMissing? && f.name != "" && f.path !in i.tree.files && exists a :: Adds(i, f.path, a) && a.owner == f.name)
  {
    hide Seeding;
    if f in SeedFindings(i.tree, Seeding(i)) {
      var a :| a in Seeding(i) && f in FindingsOfAction(i.tree, a);
      if a.Add? { assert Adds(i, a.path, a); }
    }
    if Report(f) in Seeding(i) { assert f in FindingsOfAction(i.tree, Report(f)); }
    if f.FileMissing? && f.path !in i.tree.files {
      if a :| Adds(i, f.path, a) { assert f in FindingsOfAction(i.tree, a); }
    }
    if f.ImplementationMissing? && f.name != "" && f.path !in i.tree.files {
      if a :| Adds(i, f.path, a) && a.owner == f.name { assert f in FindingsOfAction(i.tree, a); }
    }
  }

  /** Only an entry resolves wrongly when nothing is found for it, and only one file is found. */
  lemma EntryReports(t: Tree, entry: string, role: string, owner: string, kind: string, bad: LineageCompiler.Finding, f: LineageCompiler.Finding)
    requires bad != SymbolMissing(entry)
    ensures EntryAction(t, entry, role, owner, kind, bad, Report(f)) <==>
              (f == bad && EntryBroken(t, entry)) || (f == SymbolMissing(entry) && SymbolGone(t, entry))
  {
    hide EntryAt;
  }

  /** What a report among the seed actions can be. */
  ghost predicate ReportDue(i: Inputs, f: LineageCompiler.Finding) {
    match f
    case RegistryHashMismatch => i.scope.expectedRegistryHash != "" && i.scope.actualRegistryHash != i.scope.expectedRegistryHash
    case EntrypointCount => |i.scope.entrypoints| != 1
    case RequiredModuleMissing(m) => m in i.scope.requiredModules && m !in i.scope.modules
    case BadEntrypoint(e) => e in i.scope.entrypoints && EntryBroken(i.tree, e)
    case SymbolMissing(e) => (e in i.scope.entrypoints || exists m :: Required(i, m) && RunnerOf(i, m) == e) && SymbolGone(i.tree, e)
    case GlobEmpty(g) => g in i.scope.seedGlobs && i.tree.glob(g) == []
    case RunnerMissing(m) => Required(i, m) && RunnerOf(i, m) == ""
    case BadRunner(m) => Required(i, m) && RunnerOf(i, m) != "" && EntryBroken(i.tree, RunnerOf(i, m))
    case _ => false
  }

  lemma ModuleReports(i: Inputs, m: string, f: LineageCompiler.Finding)
    ensures m in i.scope.requiredModules && ModuleAction(i.tree, i.scope, m, Report(f)) <==>
              || (f == RequiredModuleMissing(m) && m in i.scope.requiredModules && m !in i.scope.modules)
              || (f == RunnerMissing(m) && Required(i, m) && RunnerOf(i, m) == "")
              || (f == BadRunner(m) && Required(i, m) && RunnerOf(i, m) != "" && EntryBroken(i.tree, RunnerOf(i, m)))
              || (Required(i, m) && f == SymbolMissing(RunnerOf(i, m)) && SymbolGone(i.tree, RunnerOf(i, m)))
  {
    hide EntryAction, EntryBroken, SymbolGone, TextOrEmpty, RunnerOf, QueueFor;
    RunnerIsText(i);
    if Required(i, m) {
      EntryReports(i.tree, RunnerOf(i, m), "registry_runner", m, "RUNS", BadRunner(m), f);
      NothingGone(i.tree);
    }
  }

  lemma NothingGone(t: Tree)
    ensures !SymbolGone(t, "")
  {
    NoEntryInNothing(t);
  }

  lemma ReportsExactly(i: Inputs, f: LineageCompiler.Finding)
    ensures Report(f) in Seeding(i) <==> ReportDue(i, f)
  {
    hide Seeding, EntryAction, EntryBroken, SymbolGone, ModuleAction, QueueFor, RunnerOf;
    SeedingExactly(i, Report(f));
    forall e ensures EntryAction(i.tree, e, "production_entrypoint", "", "", BadEntrypoint(e), Report(f)) <==>
        (f == BadEntrypoint(e) && EntryBroken(i.tree, e)) || (f == SymbolMissing(e) && SymbolGone(i.tree, e)) {
      EntryReports(i.tree, e, "production_entrypoint", "", "", BadEntrypoint(e), f);
    }
    forall m ensures m in i.scope.requiredModules && ModuleAction(i.tree, i.scope, m, Report(f)) <==>
              || (f == RequiredModuleMissing(m) && m in i.scope.requiredModules && m !in i.scope.modules)
              || (f == RunnerMissing(m) && Required(i, m) && RunnerOf(i, m) == "")
              || (f == BadRunner(m) && Required(i, m) && RunnerOf(i, m) != "" && EntryBroken(i.tree, RunnerOf(i, m)))
              || (Required(i, m) && f == SymbolMissing(RunnerOf(i, m)) && SymbolGone(i.tree, RunnerOf(i, m))) {
      ModuleReports(i, m, f);
    }
    hide Required;
  }

  // ------------------------------------------------------------------ the boundary

  lemma {:induction false} RStripExactly(prefix: string, p: Path)
    ensures p == RStripSlash(prefix) <==> LessSlashes(prefix, p)
    decreases |prefix|
  {
    if prefix != "" && prefix[|prefix| - 1] == '/' {
      var front := prefix[..|prefix| - 1];
      RStripExactly(front, p);
      assert RStripSlash(prefix) == RStripSlash(front);
      OneSlashOff(prefix, p);
    }
  }

  lemma OneSlashOff(prefix: string, p: Path)
    requires prefix != "" && prefix[|prefix| - 1] == '/'
    ensures LessSlashes(prefix, p) <==> LessSlashes(prefix[..|prefix| - 1], p)
  {
    var front := prefix[..|prefix| - 1];
    if LessSlashes(prefix, p) { assert p != prefix; }
    if LessSlashes(front, p) { assert forall k | |p| <= k < |front| :: prefix[k] == front[k]; }
  }

  lemma {:induction false} NameExactly(p: Path, name: string)
    ensures NameOf(p) == name <==> NameIs(p, name)
    decreases |p|
  {
    if exists k :: 0 <= k < |p| && p[k] == '/' {
      var n := SlashAt(p);
      var rest := p[n + 1..];
      FirstSlash(p);
      NameExactly(rest, name);
      assert p == p[..n] + "/" + rest;
      BehindSlash(p, p[..n], rest, name);
    } else {
      forall dir ensures p != dir + "/" + name { NotBehind(p, dir, name); }
    }
  }

  lemma NotBehind(p: Path, dir: string, name: string)
    requires !exists k :: 0 <= k < |p| && p[k] == '/'
    ensures p != dir + "/" + name
  {
    var q := dir + "/" + name;
    assert q[|dir|] == '/';
  }

  lemma {:induction false} FirstSlash(p: Path)
    requires exists k :: 0 <= k < |p| && p[k] == '/'
    ensures '/' !in p[..SlashAt(p)]
  {
    if p[0] != '/' {
      assert exists k :: 0 <= k < |p[1..]| && p[1..][k] == '/' by { var k :| 0 <= k < |p| && p[k] == '/'; assert p[1..][k - 1] == '/'; }
      FirstSlash(p[1..]);
      assert p[..SlashAt(p)] == [p[0]] + p[1..][..SlashAt(p[1..])];
    }
  }

  /** Behind the first slash, the name is the same. */
  lemma BehindSlash(p: Path, head: string, rest: string, name: string)
    requires p == head + "/" + rest && '/' !in head
    ensures NameIs(p, name) <==> NameIs(rest, name)
  {
    if NameIs(rest, name) {
      if rest != name {
        var dir :| rest == dir + "/" + name;
        assert p == (head + "/" + dir) + "/" + name;
      }
    }
    if NameIs(p, name) {
      assert p[|head|] == '/' && p[|head|] in p;
      var dir :| p == dir + "/" + name;
      SlashBefore(p, head, rest, dir, name);
    }
  }

  lemma SlashBefore(p: Path, head: string, rest: string, dir: string, name: string)
    requires p == head + "/" + rest == dir + "/" + name && '/' !in head && '/' !in name
    ensures NameIs(rest, name)
  {
    assert p[|dir|] == '/' && p[|head|] == '/';
    assert head == p[..|head|] && dir == p[..|dir|] && rest == p[|head| + 1..] && name == p[|dir| + 1..];
    assert forall k | 0 <= k < |head| :: head[k] == p[k] && head[k] in head;
    if |dir| > |head| {
      assert rest == dir[|head| + 1..] + "/" + name;
    }
  }

  lemma BoundaryExactly(i: Inputs, runtime: set<Path>, f: LineageCompiler.Finding)
    ensures f in BoundarySet(i.scope, SortText(runtime)) <==> BoundaryDue(i, runtime, f)
  {
    hide SortText, RStripSlash, NameOf, LessSlashes, NameIs, BoundarySet, BoundaryFindings;
    BoundaryMembers(i.scope, SortText(runtime), f);
    if f.ForbiddenName? || f.PrivateBoundary? || f.OutsideAllowlist? {
      var p := f.path;
      assert p in SortText(runtime) <==> p in Elements(SortText(runtime));
      OneBoundary(i.scope, p, f);
      forall name ensures NameOf(p) == name <==> NameIs(p, name) { NameExactly(p, name); }
      forall prefix ensures p == RStripSlash(prefix) <==> LessSlashes(prefix, p) { RStripExactly(prefix, p); }
    }
  }

  /** A boundary finding is one of the three kinds, about a path of the list. */
  lemma BoundaryMembers(scope: Scope, paths: seq<Path>, f: LineageCompiler.Finding)
    ensures f in BoundarySet(scope, paths) <==>
              (f.ForbiddenName? || f.PrivateBoundary? || f.OutsideAllowlist?) && f.path in paths && f in BoundaryFindings(scope, f.path)
  {
    hide NameOf, Forbidden, Allowed;
  }

  lemma OneBoundary(scope: Scope, p: Path, f: LineageCompiler.Finding)
    requires (f.ForbiddenName? || f.PrivateBoundary? || f.OutsideAllowlist?) && f.path == p
    ensures f in BoundaryFindings(scope, p) <==>
              || (f.ForbiddenName? && NameOf(p) in scope.forbiddenNames)
              || (f.PrivateBoundary? && exists prefix :: prefix in scope.forbiddenPrefixes && (p == RStripSlash(prefix) || prefix <= p))
              || (f.OutsideAllowlist? && scope.allowedPrefixes != [] &&
                   !exists prefix :: prefix in scope.allowedPrefixes && (p == prefix || (prefix != "" && prefix[|prefix| - 1] == '/' && prefix <= p)))
  {
    hide RStripSlash, NameOf, Allowed;
    AllowedExactly(p, scope.allowedPrefixes);
  }

  lemma AllowedExactly(p: Path, prefixes: seq<string>)
    ensures Allowed(p, prefixes) <==>
              exists prefix :: prefix in prefixes && (p == prefix || (prefix != "" && prefix[|prefix| - 1] == '/' && prefix <= p))
  {
    hide EndsWith;
    forall prefix: string ensures EndsWith(prefix, "/") <==> prefix != "" && prefix[|prefix| - 1] == '/' { EndsInSlash(prefix); }
  }

  lemma EndsInSlash(prefix: string)
    ensures EndsWith(prefix, "/") <==> prefix != "" && prefix[|prefix| - 1] == '/'
  {
    if prefix != "" { assert prefix[|prefix| - 1..] == [prefix[|prefix| - 1]]; }
  }

  lemma MissingExactly(i: Inputs, p: Path, m: string)
    ensures (exists a :: Adds(i, p, a)) <==> Named(i, p) || EntryFile(i, p) || p in i.scope.staticRoots
    ensures m != "" ==> ((exists a :: Adds(i, p, a) && a.owner == m) <==> Implements(i, m, p) || Runs(i, m, p))
  {
    hide Seeding, AddCase, Named, EntryFile, Implements, Runs, QueueFor;
    forall a ensures Adds(i, p, a) <==> AddCase(i, p, a) { AddsExactly(i, p, a); }
    AllAdd(i, p);
    QueuedExactly(i, p, PythonQueue);
    QueuedExactly(i, p, FrontendQueue);
    QueuedExactly(i, p, NoQueue);
    if m != "" { OwnerCases(i, p, m); }
  }

  /** A file that is not there is no entrypoint's and no runner's. */
  lemma MissingIsNoEntry(i: Inputs, p: Path, m: string)
    requires p !in i.tree.files
    ensures !EntryFile(i, p) && !Runs(i, m, p)
  {
  }

  /** The findings of a lineage are exactly the due ones. */
  lemma FindingsExactly(pf: Platform, i: Inputs, py: set<Path>, fe: set<Path>, c: Compiled, f: LineageCompiler.Finding)
    requires IsLineage(pf, i, py, fe, c)
    ensures f in c.findings <==> FindingDue(i, py, fe, f)
  {
    hide RuntimePaths, Assembled, AllEdges, AllFindings, RecordsAt, SortText, AreClosures;
    AssembledFindings(pf, i, RecordsAt(pf, i, py, fe, SortText(RuntimePaths(i, py, fe))), AllEdges(i, py, fe), AllFindings(i, py, fe),
                      i.governance(RuntimePaths(i, py, fe)));
    hide IsLineage;
    AllFindingsExactly(i, py, fe, f);
  }

  lemma AssembledFindings(pf: Platform, i: Inputs, records: seq<FileRecord>, edges: set<Edge>, findings: set<LineageCompiler.Finding>, g: Governance)
    ensures Assembled(pf, i, records, edges, findings, g).findings == findings
  {
    hide GraphDocument, GraphMaterial, VerificationReport, ReportMaterial, RegistrySnapshot, SnapshotMaterial, EvidenceManifest, EvidenceMaterial;
  }

  /** What the seeds make of it. */
  ghost predicate SeedFindingDue(i: Inputs, f: LineageCompiler.Finding) {
    || ReportDue(i, f)
    || (f.FileMissing? && f.path !in i.tree.files && Wanted(i, f.path))
    || (f.ImplementationMissing? && f.name != "" && f.path !in i.tree.files && Implements(i, f.name, f.path))
  }

  lemma SeedFindingsAre(i: Inputs, f: LineageCompiler.Finding)
    ensures f in SeedFindings(i.tree, Seeding(i)) <==> SeedFindingDue(i, f)
  {
    hide SeedFindings, Seeding, ReportDue, Adds, Named, EntryFile, Implements, Runs;
    SeedFindingsExactly(i, f);
    ReportsExactly(i, f);
    if f.FileMissing? && f.path !in i.tree.files {
      MissingExactly(i, f.path, "");
      MissingIsNoEntry(i, f.path, "");
    }
    if f.ImplementationMissing? && f.name != "" && f.path !in i.tree.files {
      MissingExactly(i, f.path, f.name);
      MissingIsNoEntry(i, f.path, f.name);
    }
  }

  /** What the boundary makes of it. */
  ghost predicate BoundaryDue(i: Inputs, runtime: set<Path>, f: LineageCompiler.Finding) {
    || (f.ForbiddenName? && f.path in runtime && exists name :: NameIs(f.path, name) && name in i.scope.forbiddenNames)
    || (f.PrivateBoundary? && f.path in runtime &&
         exists prefix :: prefix in i.scope.forbiddenPrefixes && (prefix <= f.path || LessSlashes(prefix, f.path)))
    || (f.OutsideAllowlist? && f.path in runtime && i.scope.allowedPrefixes != [] &&
         !exists prefix :: prefix in i.scope.allowedPrefixes && (f.path == prefix || (prefix != "" && prefix[|prefix| - 1] == '/' && prefix <= f.path)))
  }

  lemma AllFindingsExactly(i: Inputs, py: set<Path>, fe: set<Path>, f: LineageCompiler.Finding)
    ensures f in AllFindings(i, py, fe) <==> FindingDue(i, py, fe, f)
  {
    hide RuntimePaths, SortText, Seeding, SeedFindings, BoundarySet, SeedFindingDue, BoundaryDue, FindingDue, ShadowsOf;
    SeedFindingsAre(i, f);
    BoundaryExactly(i, RuntimePaths(i, py, fe), f);
    FindingIsDue(i, py, fe, f);
  }

  lemma FindingIsDue(i: Inputs, py: set<Path>, fe: set<Path>, f: LineageCompiler.Finding)
    ensures FindingDue(i, py, fe, f) <==>
              || SeedFindingDue(i, f) || BoundaryDue(i, RuntimePaths(i, py, fe), f)
              || (f.ImportProblem? && exists p :: p in py && f.text in i.tree.importFindings(p))
              || (f.GovernanceProblem? && f.text in i.governance(RuntimePaths(i, py, fe)).findings)
              || (f.ShadowEntrypoints? && i.scope.failOnShadow && f.names != [] && f.names == Names(ShadowsOf(i)))
  {
    hide RuntimePaths, Required, RunnerOf, EntryBroken, SymbolGone, Named, Implements, NameIs, LessSlashes, Names, ShadowsOf;
  }

  /** The boundary, from the other side: no file of a lineage without findings has a forbidden name, lies
      under a forbidden prefix, or lies outside the allowed ones. */
  lemma CleanKeepsTheBoundary(pf: Platform, i: Inputs, py: set<Path>, fe: set<Path>, c: Compiled, p: Path, prefix: string, name: string)
    requires IsLineage(pf, i, py, fe, c) && c.findings == {} && p in RuntimePaths(i, py, fe)
    ensures name in i.scope.forbiddenNames && '/' !in name ==> p != name && forall dir :: p != dir + "/" + name
    ensures prefix in i.scope.forbiddenPrefixes ==> !(prefix <= p) && (p == "" || p[|p| - 1] != '/' ==> prefix != p + "/")
    ensures i.scope.allowedPrefixes != [] ==>
              exists q :: q in i.scope.allowedPrefixes && (p == q || (q != "" && q[|q| - 1] == '/' && q <= p))
  {
    hide IsLineage, RuntimePaths, NameIs, LessSlashes;
    FindingsExactly(pf, i, py, fe, c, ForbiddenName(p));
    FindingsExactly(pf, i, py, fe, c, PrivateBoundary(p));
    FindingsExactly(pf, i, py, fe, c, OutsideAllowlist(p));
    if name in i.scope.forbiddenNames && '/' !in name { NoSuchName(p, name); }
    if prefix in i.scope.forbiddenPrefixes { NoSuchPrefix(p, prefix); }
  }

  lemma NoSuchName(p: Path, name: string)
    requires '/' !in name && !NameIs(p, name)
    ensures p != name && forall dir :: p != dir + "/" + name
  {
  }

  lemma NoSuchPrefix(p: Path, prefix: string)
    requires !LessSlashes(prefix, p)
    ensures p == "" || p[|p| - 1] != '/' ==> prefix != p + "/"
  {
  }
}
