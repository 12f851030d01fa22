/** The main theorem of the release path: a compiled lineage goes through builder and verifier exactly
    when it is verified, has the expected entrypoint, and lists legal paths off the reserved names. */
module CompiledPackage {
  import opened Sorting
  import opened TextOrder
  import opened Closure
  import opened PyText
  import opened Json
  import opened Platform
  import opened Wrappers
  import opened PosixPath
  import opened LineageText
  import opened LineageGraph
  import opened LineageCompiler
  import opened LineageEvidence
  import opened RuntimePackage
  import opened PackageTheorems
  import opened ThreeStages

  // ------------------------------------------------------------------ what the documents say

  lemma ReportLayers(pf: Platform, i: Inputs, records: seq<FileRecord>, findings: set<Finding>, graphHash: string, material: Dict)
    ensures var core, signature := ReportCore(pf, i, records, graphHash), ReportSignature(pf, material, findings);
            && "sourceCommit" in core && Get(core, "sourceCommit") == Str(i.commit)
            && "runtimeHash" in core && Get(core, "runtimeHash") == Str(HashOf(pf, RuntimeMaterial(records)))
            && "verified" in signature && Get(signature, "verified") == Bool(findings == {})
            && "sourceCommit" !in signature && "runtimeHash" !in signature
  {
    hide HashOf, RuntimeMaterial;
  }

  lemma ReportSays(pf: Platform, i: Inputs, records: seq<FileRecord>, findings: set<Finding>, g: Governance, graphHash: string)
    ensures var r := VerificationReport(pf, ReportMaterial(pf, i, records, findings, g, graphHash), findings);
            && Get(r, "verified") == Bool(findings == {}) && Get(r, "sourceCommit") == Str(i.commit)
            && Get(r, "runtimeHash") == Str(HashOf(pf, RuntimeMaterial(records)))
  {
    hide Governed, ReportContext, ReportCore, ReportSignature, HashOf, RuntimeMaterial, Get;
    var under := Governed(g) + ReportContext(pf, i, records, findings, g);
    var core := ReportCore(pf, i, records, graphHash);
    var material := ReportMaterial(pf, i, records, findings, g, graphHash);
    var signature := ReportSignature(pf, material, findings);
    ReportLayers(pf, i, records, findings, graphHash, material);
    GetMerged(material, signature, "verified");
    GetMerged(material, signature, "sourceCommit");
    GetMerged(material, signature, "runtimeHash");
    GetMerged(under, core, "sourceCommit");
    GetMerged(under, core, "runtimeHash");
  }

  lemma EvidenceLayers(i: Inputs, findings: set<Finding>)
    ensures var core := EvidenceCore(i, findings);
            && "verified" in core && Get(core, "verified") == Bool(findings == {})
            && "sourceCommit" in core && Get(core, "sourceCommit") == Str(i.commit)
            && "entrypoint" in core && Get(core, "entrypoint") == (if |i.scope.entrypoints| == 1 then Str(i.scope.entrypoints[0]) else Null)
            && "manifestHash" !in core && "manifestHash" != "verified" && "manifestHash" != "sourceCommit" && "manifestHash" != "entrypoint"
  {
  }

  lemma EvidenceSays(pf: Platform, i: Inputs, snapshot: Dict, report: Dict, findings: set<Finding>, g: Governance)
    ensures var e := EvidenceManifest(pf, EvidenceMaterial(pf, i, snapshot, report, findings, g));
            && Get(e, "verified") == Bool(findings == {}) && Get(e, "sourceCommit") == Str(i.commit)
            && Get(e, "entrypoint") == if |i.scope.entrypoints| == 1 then Str(i.scope.entrypoints[0]) else Null
  {
    hide Governed, EvidenceContext, EvidenceCore, HashOf, Get;
    var under, core := Governed(g) + EvidenceContext(pf, i, snapshot, report), EvidenceCore(i, findings);
    var material := EvidenceMaterial(pf, i, snapshot, report, findings, g);
    var signature: Dict := map["manifestHash" := Str(HashOf(pf, Obj(material)))];
    EvidenceLayers(i, findings);
    GetMerged(material, signature, "verified");
    GetMerged(material, signature, "sourceCommit");
    GetMerged(material, signature, "entrypoint");
    GetMerged(under, core, "verified");
    GetMerged(under, core, "sourceCommit");
    GetMerged(under, core, "entrypoint");
  }

  /** The facts about a compiled lineage that the later stages depend on. */
  ghost predicate Says(pf: Platform, i: Inputs, c: Compiled) {
    && Get(c.report, "verified") == Bool(c.findings == {}) && Get(c.report, "sourceCommit") == Str(i.commit)
    && Get(c.report, "runtimeHash") == Str(HashOf(pf, RuntimeMaterial(c.records)))
    && Get(c.evidence, "verified") == Bool(c.findings == {}) && Get(c.evidence, "sourceCommit") == Str(i.commit)
    && Get(c.evidence, "entrypoint") == if |i.scope.entrypoints| == 1 then Str(i.scope.entrypoints[0]) else Null
  }

  lemma AssembledSays(pf: Platform, i: Inputs, records: seq<FileRecord>, edges: set<Edge>, findings: set<Finding>, g: Governance)
    ensures var c := Assembled(pf, i, records, edges, findings, g);
            Says(pf, i, c) && c.records == records && c.findings == findings
  {
    hide VerificationReport, ReportMaterial, EvidenceManifest, EvidenceMaterial, RegistrySnapshot, SnapshotMaterial, GraphDocument, GraphMaterial,
         GraphNodes, HashOf, RuntimeMaterial;
    var c := Assembled(pf, i, records, edges, findings, g);
    ReportSays(pf, i, records, findings, g, Text(Get(c.graph, "graphHash")));
    EvidenceSays(pf, i, c.snapshot, c.report, findings, g);
  }

  // ------------------------------------------------------------------ records and paths

  function HexAt(pf: Platform, t: Tree): string -> string {
    p => pf.hex(FileAt(t, p).data)
  }

  function Listed(i: Inputs, py: set<Path>, fe: set<Path>): seq<Path> {
    SortText(RuntimePaths(i, py, fe))
  }

  lemma CompiledRecords(pf: Platform, i: Inputs, py: set<Path>, fe: set<Path>, c: Compiled)
    requires IsLineage(pf, i, py, fe, c)
    ensures Says(pf, i, c)
    ensures var paths := Listed(i, py, fe);
            && (forall p | p in paths :: p in i.tree.files)
            && PathsOf(c.records) == paths
            && DigestLines(c.records) == ShaLines(paths, HexAt(pf, i.tree))
            && RuntimeMaterial(c.records) == RuntimeItems(RuntimeRecords(pf, i.tree, paths))
  {
    hide AreClosures, RuntimePaths, AllEdges, AllFindings, Assembled, Says, SortText, RecordsAt;
    var paths := Listed(i, py, fe);
    var records := RecordsAt(pf, i, py, fe, paths);
    AssembledSays(pf, i, records, AllEdges(i, py, fe), AllFindings(i, py, fe), i.governance(RuntimePaths(i, py, fe)));
    RecordsRead(pf, i, py, fe, paths);
  }

  lemma RecordsRead(pf: Platform, i: Inputs, py: set<Path>, fe: set<Path>, paths: seq<Path>)
    requires forall p | p in paths :: p in i.tree.files
    ensures var records := RecordsAt(pf, i, py, fe, paths);
            && PathsOf(records) == paths
            && DigestLines(records) == ShaLines(paths, HexAt(pf, i.tree))
            && RuntimeMaterial(records) == RuntimeItems(RuntimeRecords(pf, i.tree, paths))
  {
    hide SortText, RolesAt, SeedOwners, Seeding, ShaText, ModeOf;
    var records := RecordsAt(pf, i, py, fe, paths);
    forall k | 0 <= k < |paths|
      ensures records[k].path == paths[k] && Bare(records[k].sha256) == HexAt(pf, i.tree)(paths[k])
      ensures records[k].sha256 == Sha(pf, FileAt(i.tree, paths[k]).data) && records[k].size == |FileAt(i.tree, paths[k]).data|
    {
      assert paths[k] in i.tree.files && FileAt(i.tree, paths[k]).data == i.tree.files[paths[k]].data;
      assert records[k].sha256 == Sha(pf, i.tree.files[paths[k]].data);
      BareOfSha(pf, i.tree.files[paths[k]].data);
      assert HexAt(pf, i.tree)(paths[k]) == pf.hex(FileAt(i.tree, paths[k]).data);
    }
    hide RecordsAt, Sha, FileAt, Bare, HexAt;
    assert DigestLines(records) == ShaLines(paths, HexAt(pf, i.tree));
    var runtime := RuntimeRecords(pf, i.tree, paths);
    assert forall k | 0 <= k < |paths| :: LineageEvidence.RuntimeItem(records[k].path, records[k].sha256, records[k].size) == RuntimePackage.RuntimeItem(runtime[k]);
  }

  lemma BareOfSha(pf: Platform, data: Bytes)
    ensures Bare(Sha(pf, data)) == pf.hex(data)
  {
    assert Sha(pf, data)[..7] == "sha256:" && Sha(pf, data)[7..] == pf.hex(data);
  }

  // ------------------------------------------------------------------ what the builder reads back

  lemma OutputsHold(pf: Platform, identity: Dict, c: Compiled)
    ensures var dir := Outputs(pf, identity, c);
            && "verification-report.json" in dir && dir["verification-report.json"] == pf.render(Obj(c.report))
            && "evidence-manifest.json" in dir && dir["evidence-manifest.json"] == pf.render(Obj(c.evidence))
            && "registry-snapshot.json" in dir && dir["registry-snapshot.json"] == pf.render(Obj(c.snapshot))
            && "source-identity.json" in dir && dir["source-identity.json"] == pf.render(Obj(identity))
            && "runtime-files.txt" in dir && dir["runtime-files.txt"] == pf.utf8(PrintLines(PathsOf(c.records)))
            && "runtime-files.sha256" in dir && dir["runtime-files.sha256"] == pf.utf8(PrintLines(DigestLines(c.records)))
            && forall name | name in EVIDENCE_NAMES :: name in dir
  {
    hide PrintLines, PathsOf, DigestLines;
  }

  lemma {:induction false} NoReturns(lines: seq<string>)
    requires forall line | line in lines :: OneLine(line)
    ensures '\r' !in PrintLines(lines)
  {
    if lines != [] {
      assert lines[0] in lines;
      assert IsBreak('\r') && '\r' !in lines[0];
      NoReturns(lines[1..]);
    }
  }

  lemma PrintedReads(pf: Platform, lines: seq<string>)
    requires Faithful(pf) && forall line | line in lines :: OneLine(line)
    ensures pf.readText(pf.utf8(PrintLines(lines))) == PrintLines(lines)
    ensures SplitLines(PrintLines(lines)) == lines
  {
    NoReturns(lines);
    SplitPrinted(lines);
  }

  lemma RenderedReads(pf: Platform, dir: map<string, Bytes>, name: string, d: Dict)
    requires Faithful(pf) && name in dir && dir[name] == pf.render(Obj(d))
    ensures ReadObject(pf, dir, name) == Ok(d)
  {
    assert pf.parse(pf.render(Obj(d))) == Some(Obj(d));
  }

  /** The four documents come back as they were written. */
  lemma DocumentsRead(pf: Platform, identity: Dict, c: Compiled)
    requires Faithful(pf)
    ensures var dir := Outputs(pf, identity, c);
            && ReadObject(pf, dir, "verification-report.json") == Ok(c.report)
            && ReadObject(pf, dir, "evidence-manifest.json") == Ok(c.evidence)
            && ReadObject(pf, dir, "registry-snapshot.json") == Ok(c.snapshot)
            && ReadObject(pf, dir, "source-identity.json") == Ok(identity)
  {
    hide Outputs, Faithful, ReadObject, EVIDENCE_NAMES;
    OutputsHold(pf, identity, c);
    var dir := Outputs(pf, identity, c);
    RenderedReads(pf, dir, "verification-report.json", c.report);
    RenderedReads(pf, dir, "evidence-manifest.json", c.evidence);
    RenderedReads(pf, dir, "registry-snapshot.json", c.snapshot);
    RenderedReads(pf, dir, "source-identity.json", identity);
  }

  function HexMap(pf: Platform, t: Tree, paths: seq<Path>): map<string, string> {
    map p | p in paths :: HexAt(pf, t)(p)
  }

  /** Legal paths: both text files come back too. */
  lemma TextsRead(pf: Platform, t: Tree, paths: seq<Path>)
    requires Faithful(pf) && Ascending(paths, Less) && paths != [] && forall p | p in paths :: Legal(p)
    ensures RuntimeList(pf.readText(pf.utf8(PrintLines(paths)))) == Ok(paths)
    ensures ReadShaLines(SplitLines(pf.readText(pf.utf8(PrintLines(ShaLines(paths, HexAt(pf, t))))))) == Ok(HexMap(pf, t, paths))
  {
    hide Less, SafeRuntimePath, OneLine, Ascending, RuntimeList, ReadShaLines, SplitLines, IsHex64, PrintLines, ShaLines;
    AscendingIsPairwise(paths);
    RuntimeListRoundTrip(paths);
    PrintedReads(pf, paths);
    forall p ensures IsHex64(HexAt(pf, t)(p)) { assert HexAt(pf, t)(p) == pf.hex(FileAt(t, p).data); }
    ReadPrintedShas(paths, HexAt(pf, t));
    PrintedReads(pf, ShaLines(paths, HexAt(pf, t)));
  }

  lemma CompiledIsRead(pf: Platform, i: Inputs, c: Compiled, paths: seq<Path>)
    requires Faithful(pf) && Says(pf, i, c) && c.findings == {}
    requires PathsOf(c.records) == paths && DigestLines(c.records) == ShaLines(paths, HexAt(pf, i.tree))
    requires Ascending(paths, Less) && paths != [] && forall p | p in paths :: Legal(p)
    ensures ReadLineage(pf, Outputs(pf, i.identity, c), i.commit) ==
              Ok(Lineage(c.report, c.evidence, c.snapshot, i.identity, paths, HexMap(pf, i.tree, paths)))
  {
    hide Outputs, EVIDENCE_NAMES, Less, Legal, PathsOf, DigestLines, PrintLines, ShaLines, HexAt, HashOf, RuntimeMaterial, ReadLineage,
         RuntimeList, ReadShaLines, SplitLines, Faithful, ReadObject, Ascending;
    TextsRead(pf, i.tree, paths);
    OutputsHold(pf, i.identity, c);
    DocumentsRead(pf, i.identity, c);
    ReadWhole(pf, Outputs(pf, i.identity, c), i.commit,
              Lineage(c.report, c.evidence, c.snapshot, i.identity, paths, HexMap(pf, i.tree, paths)));
  }

  /** The pieces of a readable lineage directory. */
  lemma ReadWhole(pf: Platform, dir: map<string, Bytes>, commit: string, l: Lineage)
    requires Faithful(pf)
    requires ReadObject(pf, dir, "verification-report.json") == Ok(l.report) && ReadObject(pf, dir, "evidence-manifest.json") == Ok(l.evidence)
    requires ReadObject(pf, dir, "registry-snapshot.json") == Ok(l.snapshot) && ReadObject(pf, dir, "source-identity.json") == Ok(l.identity)
    requires Get(l.report, "verified") == Bool(true) && Get(l.report, "sourceCommit") == Str(commit)
    requires Get(l.evidence, "verified") == Bool(true) && Get(l.evidence, "sourceCommit") == Str(commit)
    requires "runtime-files.txt" in dir && RuntimeList(pf.readText(dir["runtime-files.txt"])) == Ok(l.paths)
    requires "runtime-files.sha256" in dir && ReadShaLines(SplitLines(pf.readText(dir["runtime-files.sha256"]))) == Ok(l.hashes)
    requires Elements(l.paths) == l.hashes.Keys
    ensures ReadLineage(pf, dir, commit) == Ok(l)
  {
    hide ReadObject, RuntimeList, ReadShaLines, SplitLines;
  }

  /** Whatever the builder reads comes from these documents and this list. */
  lemma ReadIsCompiled(pf: Platform, i: Inputs, c: Compiled)
    requires Faithful(pf) && Says(pf, i, c) && ReadLineage(pf, Outputs(pf, i.identity, c), i.commit).Ok?
    ensures var l := ReadLineage(pf, Outputs(pf, i.identity, c), i.commit).value;
            && l.report == c.report && l.evidence == c.evidence && c.findings == {}
            && RuntimeList(pf.readText(pf.utf8(PrintLines(PathsOf(c.records))))) == Ok(l.paths)
  {
    hide Outputs, ReadObject, EVIDENCE_NAMES, Faithful, PathsOf, DigestLines, PrintLines, RuntimeList, ReadShaLines, SplitLines, HashOf, RuntimeMaterial;
    OutputsHold(pf, i.identity, c);
    DocumentsRead(pf, i.identity, c);
  }

  lemma ItemsDeterminePaths(pf: Platform, t: Tree, a: seq<string>, b: seq<string>)
    requires RuntimeItems(RuntimeRecords(pf, t, a)) == RuntimeItems(RuntimeRecords(pf, t, b))
    ensures a == b
  {
    hide Sha, FileAt;
    var x, y := RuntimeItems(RuntimeRecords(pf, t, a)).items, RuntimeItems(RuntimeRecords(pf, t, b)).items;
    assert |x| == |a| && |y| == |b|;
    forall k | 0 <= k < |a| ensures a[k] == b[k] {
      assert x[k].fields["path"] == Str(a[k]) && y[k].fields["path"] == Str(b[k]);
    }
  }

  // ------------------------------------------------------------------ the theorem

  /** What a tree must be like for its compiled lineage to be packed and accepted. */
  ghost predicate Packable(i: Inputs, paths: set<Path>) {
    && i.scope.entrypoints == [ENTRYPOINT]
    && (forall p | p in paths :: Legal(p))
    && (forall p, r | p in paths && r in Reserved() :: !Clash(p, r))
  }

  ghost predicate GoesThrough(pf: Platform, i: Inputs, c: Compiled) {
    var built := Build(pf, i.tree, Outputs(pf, i.identity, c), i.commit);
    built.Ok? && Verified(pf, built.value.members, i.commit).Ok?
  }

  /** Seed collection starts with the declared entrypoint: its file, or a complaint about it. */
  lemma SeedingStarts(i: Inputs, first: Action)
    requires |i.scope.entrypoints| == 1
    requires var e := i.scope.entrypoints[0];
             first == EntryActions(i.tree, e, "production_entrypoint", "", "", BadEntrypoint(e))[0]
    ensures first in Seeding(i)
  {
    hide SplitEntry, EntryActions, FileActions, GlobActions, RootActions, ModuleActions;
    var entries := EntrypointActions(i.tree, i.scope.entrypoints);
    assert entries[0] == first && first in entries;
  }

  lemma EntryActionShape(t: Tree, entry: string, bad: Finding)
    ensures var first := EntryActions(t, entry, "production_entrypoint", "", "", bad)[0];
            first.Report? || (first.Add? && first.path in t.files)
  {
    hide SplitEntry;
  }

  lemma FirstIsSeed(t: Tree, actions: seq<Action>, a: Action)
    requires a in actions && SeedFindings(t, actions) == {} && (a.Report? || (a.Add? && a.path in t.files))
    ensures Seeds(t, actions) != {}
  {
    hide SeedFindings;
    if a.Report? {
      ReportedIsFound(t, actions, a);
    } else {
      assert a.path in Seeds(t, actions);
    }
  }

  lemma ReportedIsFound(t: Tree, actions: seq<Action>, a: Action)
    requires a in actions && a.Report?
    ensures a.finding in SeedFindings(t, actions)
  {
    assert a.finding in FindingsOfAction(t, a);
  }

  /** A verified lineage has at least one runtime file: that of its entrypoint. */
  lemma EntrypointIsRuntime(i: Inputs, py: set<Path>, fe: set<Path>)
    requires AllFindings(i, py, fe) == {} && |i.scope.entrypoints| == 1
    ensures RuntimePaths(i, py, fe) != {}
  {
    hide EntryActions, Seeding, SeedFindings, Seeds, ImportProblems, BoundarySet, ShadowFindings, Reported, SortText, Initializers;
    var e := i.scope.entrypoints[0];
    var first := EntryActions(i.tree, e, "production_entrypoint", "", "", BadEntrypoint(e))[0];
    SeedingStarts(i, first);
    EntryActionShape(i.tree, e, BadEntrypoint(e));
    assert SeedFindings(i.tree, Seeding(i)) == {};
    FirstIsSeed(i.tree, Seeding(i), first);
    var p :| p in Seeds(i.tree, Seeding(i));
    assert p in RuntimePaths(i, py, fe);
  }

  lemma PackableIsBuildable(pf: Platform, i: Inputs, c: Compiled, paths: seq<Path>)
    requires Faithful(pf) && Says(pf, i, c) && Coexist(i.tree.files.Keys)
    requires (forall p | p in paths :: p in i.tree.files) && RuntimeMaterial(c.records) == RuntimeItems(RuntimeRecords(pf, i.tree, paths))
    requires Packable(i, Elements(paths))
    ensures Buildable(pf, i.tree, Outputs(pf, i.identity, c), Lineage(c.report, c.evidence, c.snapshot, i.identity, paths, HexMap(pf, i.tree, paths)))
    ensures Elements(paths) !! Reserved()
  {
    hide Legal, Clash, HashOf, RuntimeItems, RuntimeMaterial, Outputs, RuntimeRecords, Reserved, EVIDENCE_NAMES, HashesMatch, KeepsClear, Coexist, Says;
    OutputsHold(pf, i.identity, c);
    SaysRuntimeHash(pf, i, c);
    HexesMatch(pf, i.tree, paths);
    ApartIsClear(Elements(paths));
    CoexistPart(i.tree.files.Keys, Elements(paths));
  }

  lemma SaysRuntimeHash(pf: Platform, i: Inputs, c: Compiled)
    requires Says(pf, i, c)
    ensures Get(c.report, "runtimeHash") == Str(HashOf(pf, RuntimeMaterial(c.records)))
  {
    hide HashOf, RuntimeMaterial;
  }

  lemma HexesMatch(pf: Platform, t: Tree, paths: seq<Path>)
    requires forall p | p in paths :: p in t.files
    ensures HashesMatch(pf, t, HexMap(pf, t, paths), paths)
  {
    forall p | p in paths ensures Sha(pf, t.files[p].data) == "sha256:" + HexMap(pf, t, paths)[p] {
      assert HexAt(pf, t)(p) == pf.hex(FileAt(t, p).data);
    }
  }

  lemma ApartIsClear(paths: set<string>)
    requires forall p, r | p in paths && r in Reserved() :: !Clash(p, r)
    ensures KeepsClear(paths) && paths !! Reserved()
  {
    hide Above, Reserved;
    forall p, r | p in paths && r in Reserved() ensures !Above(p, r) && !Above(r, p) { assert !Clash(p, r); }
    forall p | p in paths ensures p !in Reserved() { assert p in Reserved() ==> !Clash(p, p); }
  }

  lemma CoexistPart(all: set<string>, part: set<string>)
    requires Coexist(all) && part <= all
    ensures Coexist(part)
  {
    hide Above;
  }

  lemma FindingsOf(pf: Platform, i: Inputs, py: set<Path>, fe: set<Path>, c: Compiled)
    requires IsLineage(pf, i, py, fe, c)
    ensures c.findings == AllFindings(i, py, fe)
  {
    hide AllFindings, AreClosures, RuntimePaths, AllEdges, Assembled, RecordsAt, SortText;
    var paths := RuntimePaths(i, py, fe);
    AssembledSays(pf, i, RecordsAt(pf, i, py, fe, SortText(paths)), AllEdges(i, py, fe), AllFindings(i, py, fe), i.governance(paths));
  }

  lemma PackableGoesThrough(pf: Platform, i: Inputs, py: set<Path>, fe: set<Path>, c: Compiled)
    requires Faithful(pf) && IsLineage(pf, i, py, fe, c) && Coexist(i.tree.files.Keys)
    requires c.findings == {} && Packable(i, RuntimePaths(i, py, fe))
    ensures GoesThrough(pf, i, c)
  {
    hide IsLineage, RuntimePaths, AllFindings, SortText, Less, Faithful, Legal, Says, Reserved, Clash, GoesThrough, RuntimeMaterial, RuntimeItems,
         DigestLines, PathsOf, HexAt;
    CompiledRecords(pf, i, py, fe, c);
    FindingsOf(pf, i, py, fe, c);
    EntrypointIsRuntime(i, py, fe);
    var paths := Listed(i, py, fe);
    assert Elements(paths) == RuntimePaths(i, py, fe);
    assert forall p | p in paths :: p in Elements(paths);
    ListedGoesThrough(pf, i, c, paths);
  }

  lemma ListedGoesThrough(pf: Platform, i: Inputs, c: Compiled, paths: seq<Path>)
    requires Faithful(pf) && Says(pf, i, c) && Coexist(i.tree.files.Keys) && c.findings == {} && Packable(i, Elements(paths))
    requires (forall p | p in paths :: p in i.tree.files && Legal(p)) && paths != [] && Ascending(paths, Less)
    requires PathsOf(c.records) == paths && DigestLines(c.records) == ShaLines(paths, HexAt(pf, i.tree))
    requires RuntimeMaterial(c.records) == RuntimeItems(RuntimeRecords(pf, i.tree, paths))
    ensures GoesThrough(pf, i, c)
  {
    hide Less, Outputs, Build, BuildFrom, Verified, Buildable, Faithful, Legal, Says, ReadLineage, Reserved, Clash, HexMap;
    var l := Lineage(c.report, c.evidence, c.snapshot, i.identity, paths, HexMap(pf, i.tree, paths));
    var dir := Outputs(pf, i.identity, c);
    CompiledIsRead(pf, i, c, paths);
    PackableIsBuildable(pf, i, c, paths);
    hide DigestLines, PathsOf, RuntimeMaterial, RuntimeItems, RuntimeRecords, HexAt, ShaLines;
    BuildExactly(pf, i.tree, dir, i.commit, l);
    ReadThenBuilt(pf, i.tree, dir, i.commit, l);
    BuiltThenVerified(pf, i.tree, dir, i.commit);
    SaysEnough(pf, i, c);
  }

  lemma ReadThenBuilt(pf: Platform, t: Tree, dir: map<string, Bytes>, commit: string, l: Lineage)
    requires ReadLineage(pf, dir, commit) == Ok(l)
    ensures Build(pf, t, dir, commit) == BuildFrom(pf, t, dir, commit, l)
  {
    hide ReadLineage, BuildFrom;
  }

  lemma SaysEnough(pf: Platform, i: Inputs, c: Compiled)
    requires Says(pf, i, c)
    ensures Get(c.report, "sourceCommit") == Str(i.commit)
    ensures Get(c.evidence, "entrypoint") == Str(ENTRYPOINT) <==> i.scope.entrypoints == [ENTRYPOINT]
  {
    hide HashOf, RuntimeMaterial;
    if |i.scope.entrypoints| == 1 { assert i.scope.entrypoints == [i.scope.entrypoints[0]]; }
  }

  /** The list that the builder reads from the printed one. */
  function ReadBack(pf: Platform, listed: seq<Path>): seq<Path> {
    var r := RuntimeList(pf.readText(pf.utf8(PrintLines(listed))));
    if r.Ok? then r.value else []
  }

  /** The runtime as listed and the runtime as read back collide under the runtime hash. */
  ghost predicate ListsCollide(pf: Platform, t: Tree, listed: seq<Path>) {
    Collides(pf, pf.canon(RuntimeItems(RuntimeRecords(pf, t, ReadBack(pf, listed)))), pf.canon(RuntimeItems(RuntimeRecords(pf, t, listed))))
  }

  /** If the builder succeeds, it has read the list that the compiler printed, and that list is legal. */
  lemma BuiltListIsLegal(pf: Platform, i: Inputs, c: Compiled, paths: seq<Path>, l: Lineage)
    requires Faithful(pf) && CanonIsInjective(pf) && !ListsCollide(pf, i.tree, paths) && PathsOf(c.records) == paths
    requires RuntimeMaterial(c.records) == RuntimeItems(RuntimeRecords(pf, i.tree, paths))
    requires RuntimeList(pf.readText(pf.utf8(PrintLines(paths)))) == Ok(l.paths)
    requires Str(HashOf(pf, RuntimeItems(RuntimeRecords(pf, i.tree, l.paths)))) == Str(HashOf(pf, RuntimeMaterial(c.records)))
    ensures l.paths == paths && forall p | p in paths :: Legal(p)
  {
    hide Legal, RuntimeItems, RuntimeRecords, RuntimeMaterial, PathsOf, RuntimeList, PrintLines, HashOf, Collides, Ascending, Less, OneLine, Faithful;
    HashSame(pf, RuntimeItems(RuntimeRecords(pf, i.tree, l.paths)), RuntimeItems(RuntimeRecords(pf, i.tree, paths)));
    ItemsDeterminePaths(pf, i.tree, l.paths, paths);
    ReadMeansOneLine(pf.readText(pf.utf8(PrintLines(paths))));
    PrintedReads(pf, paths);
    RuntimeListRoundTrip(paths);
  }

  lemma KeepingOffIsApart(paths: set<string>)
    requires KeepsClear(paths) && paths !! Reserved()
    ensures forall p, r | p in paths && r in Reserved() :: !Clash(p, r)
  {
    hide Above, Reserved;
  }

  /** What success of both later stages says about what was read. */
  lemma ReadOnTheWay(pf: Platform, i: Inputs, c: Compiled) returns (l: Lineage)
    requires Faithful(pf) && Says(pf, i, c) && GoesThrough(pf, i, c)
    ensures c.findings == {} && i.scope.entrypoints == [ENTRYPOINT] && Elements(l.paths) !! Reserved() && KeepsClear(Elements(l.paths))
    ensures RuntimeList(pf.readText(pf.utf8(PrintLines(PathsOf(c.records))))) == Ok(l.paths)
    ensures Str(HashOf(pf, RuntimeItems(RuntimeRecords(pf, i.tree, l.paths)))) == Str(HashOf(pf, RuntimeMaterial(c.records)))
  {
    var dir := Outputs(pf, i.identity, c);
    SaysEnough(pf, i, c);
    assert Get(c.report, "runtimeHash") == Str(HashOf(pf, RuntimeMaterial(c.records)));
    hide Outputs, BuildFrom, Verified, Copyable, Faithful, ReadLineage, Reserved, RuntimeItems, RuntimeRecords,
         RuntimeMaterial, PathsOf, RuntimeList, PrintLines, HashOf, KeepsClear;
    l := ReadLineage(pf, dir, i.commit).value;
    ReadThenBuilt(pf, i.tree, dir, i.commit, l);
    ReadIsCompiled(pf, i, c);
    hide Says;
    BuildExactly(pf, i.tree, dir, i.commit, l);
    BuiltThenVerified(pf, i.tree, dir, i.commit);
    CopyableIsClear(pf, i.tree, dir, l);
  }

  lemma WentThrough(pf: Platform, i: Inputs, c: Compiled, paths: seq<Path>)
    requires Faithful(pf) && CanonIsInjective(pf) && !ListsCollide(pf, i.tree, paths) && Says(pf, i, c) && PathsOf(c.records) == paths
    requires RuntimeMaterial(c.records) == RuntimeItems(RuntimeRecords(pf, i.tree, paths))
    requires GoesThrough(pf, i, c)
    ensures c.findings == {} && Packable(i, Elements(paths))
  {
    hide GoesThrough, Faithful, CanonIsInjective, ListsCollide, Legal, Reserved, Clash, RuntimeItems, RuntimeRecords,
         RuntimeMaterial, PathsOf, RuntimeList, PrintLines, HashOf, KeepsClear, Says;
    var l := ReadOnTheWay(pf, i, c);
    BuiltListIsLegal(pf, i, c, paths, l);
    KeepingOffIsApart(Elements(paths));
  }

  lemma CopyableIsClear(pf: Platform, t: Tree, dir: map<string, Bytes>, l: Lineage)
    requires Copyable(pf, t, dir, l)
    ensures KeepsClear(Elements(l.paths))
  {
  }

  /** Three-stage acceptance. With faithful encodings, on a tree where no file is also a directory: the
      package built from a compiled lineage is accepted by the archive verifier exactly when the
      lineage is verified, its one entrypoint is `src.api.main:app`, every runtime path is legal, and
      none collides with the manifest or the seven evidence files. The direction from acceptance back
      holds unless the path list as printed and as read back collide under the runtime hash. */
  lemma ThreeStageAcceptance(pf: Platform, i: Inputs, py: set<Path>, fe: set<Path>, c: Compiled)
    requires Faithful(pf) && CanonIsInjective(pf) && IsLineage(pf, i, py, fe, c) && Coexist(i.tree.files.Keys)
    ensures c.findings == {} && Packable(i, RuntimePaths(i, py, fe)) ==> GoesThrough(pf, i, c)
    ensures GoesThrough(pf, i, c) ==> (c.findings == {} && Packable(i, RuntimePaths(i, py, fe))) || ListsCollide(pf, i.tree, Listed(i, py, fe))
  {
    hide Faithful, CanonIsInjective, IsLineage, RuntimePaths, GoesThrough, Packable, ListsCollide, Says, Coexist, SortText, RuntimeMaterial, RuntimeItems,
         RuntimeRecords, PathsOf, DigestLines, ShaLines;
    if c.findings == {} && Packable(i, RuntimePaths(i, py, fe)) {
      PackableGoesThrough(pf, i, py, fe, c);
    }
    if GoesThrough(pf, i, c) && !ListsCollide(pf, i.tree, Listed(i, py, fe)) {
      CompiledRecords(pf, i, py, fe, c);
      assert Elements(Listed(i, py, fe)) == RuntimePaths(i, py, fe);
      WentThrough(pf, i, c, Listed(i, py, fe));
    }
  }
}
