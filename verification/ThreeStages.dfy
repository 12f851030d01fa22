/** The three stages as one: what the lineage compiler writes, the package builder packs and the
    archive verifier accepts, and for which trees this goes through. */
module ThreeStages {
  import opened Sorting
  import opened TextOrder
  import opened PyText
  import opened Json
  import opened Platform
  import opened Wrappers
  import opened PosixPath
  import opened LineageText
  import opened LineageCompiler
  import opened RuntimePackage
  import opened PackageTheorems

  /** The paths the builder takes for itself. */
  function Reserved(): set<string> {
    EvidencePaths(EVIDENCE_NAMES) + {MANIFEST_PATH}
  }

  lemma PlainWord(part: string)
    requires part != "" && part[0] != '.' && '/' !in part
    ensures Plain(part)
  {
  }

  lemma FirstNamesArePlain()
    ensures Plain("source-identity.json") && Plain("registry-snapshot.json") && Plain("lineage-graph.json")
  {
    hide Plain;
    PlainWord("source-identity.json");
    PlainWord("registry-snapshot.json");
    PlainWord("lineage-graph.json");
  }

  lemma LastNamesArePlain()
    ensures Plain("runtime-files.txt") && Plain("runtime-files.sha256") && Plain("verification-report.json") && Plain("evidence-manifest.json")
  {
    hide Plain;
    PlainWord("runtime-files.txt");
    PlainWord("runtime-files.sha256");
    PlainWord("verification-report.json");
    PlainWord("evidence-manifest.json");
  }

  lemma EvidenceNamesArePlain()
    ensures forall name | name in EVIDENCE_NAMES :: Plain(name)
  {
    hide Plain;
    FirstNamesArePlain();
    LastNamesArePlain();
  }

  lemma DirectoriesArePlain()
    ensures Plain("release") && Plain("competition-lineage")
  {
  }

  lemma ManifestApart(name: string)
    ensures !Above(MANIFEST_PATH, EVIDENCE_ROOT + name) && !Above(EVIDENCE_ROOT + name, MANIFEST_PATH)
    ensures MANIFEST_PATH != EVIDENCE_ROOT + name
  {
    assert MANIFEST_PATH[20] == 'r' && (EVIDENCE_ROOT + name)[20] == 'l';
  }

  /** Names made of two or three components. */
  lemma JoinTwo(a: string, b: string)
    requires Plain(a) && Plain(b)
    ensures SafeMemberName(a + "/" + b) == Ok(a + "/" + b)
  {
    hide Plain, SafeMemberName;
    assert [a, b][1..] == [b];
    PlainIsSafeMember([a, b]);
  }

  lemma JoinThree(a: string, b: string, c: string)
    requires Plain(a) && Plain(b) && Plain(c)
    ensures SafeMemberName(a + "/" + b + "/" + c) == Ok(a + "/" + b + "/" + c)
  {
    hide Plain, SafeMemberName;
    assert [a, b, c][1..] == [b, c] && [b, c][1..] == [c];
    assert Join([b, c]) == b + "/" + c;
    assert a + "/" + (b + "/" + c) == a + "/" + b + "/" + c;
    PlainIsSafeMember([a, b, c]);
  }

  lemma EvidencePathIsSafe(name: string)
    requires Plain(name)
    ensures SafeMemberName(EVIDENCE_ROOT + name) == Ok(EVIDENCE_ROOT + name)
  {
    hide SafeMemberName, Plain;
    DirectoriesArePlain();
    JoinThree("release", "competition-lineage", name);
  }

  lemma ManifestPathIsSafe()
    ensures SafeMemberName(MANIFEST_PATH) == Ok(MANIFEST_PATH)
  {
    hide SafeMemberName, Plain;
    DirectoriesArePlain();
    PlainWord("competition-runtime-manifest.json");
    JoinTwo("release", "competition-runtime-manifest.json");
  }

  lemma ReservedAreSafe()
    ensures SafeNames(Reserved()) && Coexist(Reserved())
  {
    hide SafeMemberName, Above, Plain;
    EvidenceNamesArePlain();
    ManifestPathIsSafe();
    forall name | name in EVIDENCE_NAMES ensures SafeMemberName(EVIDENCE_ROOT + name) == Ok(EVIDENCE_ROOT + name) { EvidencePathIsSafe(name); }
    forall p, q | p in Reserved() && q in Reserved() ensures !Above(p, q) { ReservedCoexist(p, q); }
  }

  lemma ReservedCoexist(p: string, q: string)
    requires p in Reserved() && q in Reserved()
    ensures !Above(p, q)
  {
    hide Above;
    EvidenceNamesArePlain();
    if p == MANIFEST_PATH && q == MANIFEST_PATH {
      assert !Above(p, q) by { NotAboveItself(p); }
    } else if p == MANIFEST_PATH {
      var name :| name in EVIDENCE_NAMES && q == EVIDENCE_ROOT + name;
      ManifestApart(name);
    } else {
      var name :| name in EVIDENCE_NAMES && p == EVIDENCE_ROOT + name;
      ManifestApart(name);
      if q != MANIFEST_PATH {
        var other :| other in EVIDENCE_NAMES && q == EVIDENCE_ROOT + other;
        SiblingsCoexist(EVIDENCE_ROOT, name, other);
      }
    }
  }

  // ------------------------------------------------------------------ when the builder succeeds

  /** Nothing in the runtime needs a directory where a reserved file goes, nor the reverse. */
  ghost predicate KeepsClear(paths: set<string>) {
    forall p, r | p in paths && r in Reserved() :: !Above(p, r) && !Above(r, p)
  }

  /** Every file is there, with the listed hash, and nothing is in anything's way. */
  ghost predicate Copyable(pf: Platform, t: Tree, dir: map<string, Bytes>, l: Lineage) {
    && HashesMatch(pf, t, l.hashes, l.paths) && Coexist(Elements(l.paths))
    && (forall name | name in EVIDENCE_NAMES :: name in dir)
    && KeepsClear(Elements(l.paths))
  }

  ghost predicate Buildable(pf: Platform, t: Tree, dir: map<string, Bytes>, l: Lineage) {
    && Copyable(pf, t, dir, l)
    && Str(HashOf(pf, RuntimeItems(RuntimeRecords(pf, t, l.paths)))) == Get(l.report, "runtimeHash")
  }

  /** The records and the staged files that the two copies come to. */
  ghost predicate Copies(pf: Platform, t: Tree, dir: map<string, Bytes>, l: Lineage, runtime: seq<Record>, evidence: seq<Record>, staged: Stage) {
    && runtime == RuntimeRecords(pf, t, l.paths) && staged == StagedOf(t, l.paths)
    && evidence == EvidenceRecords(pf, dir, EVIDENCE_NAMES)
  }

  /** What a package holds: the runtime files, then the evidence, then the manifest, later writes
      going over earlier ones. */
  ghost predicate Holds(pf: Platform, dir: map<string, Bytes>, commit: string, l: Lineage,
                        runtime: seq<Record>, evidence: seq<Record>, staged: Stage, p: Package) {
    && p.manifest == Manifest(pf, ManifestMaterial(pf, commit, l, runtime, evidence))
    && p.members == Archive(p.stage)
    && p.stage.Keys == staged.Keys + Reserved()
    && p.stage[MANIFEST_PATH] == Staged(pf.render(Obj(p.manifest)), "0644")
    && (forall name | name in EVIDENCE_NAMES :: name in dir && p.stage[EVIDENCE_ROOT + name] == Staged(dir[name], "0644"))
    && (forall q | q in staged && q !in Reserved() :: p.stage[q] == staged[q])
  }

  lemma ManifestBlocked(stage: Stage, dir: map<string, Bytes>, after: Stage)
    requires EvidenceStaged(stage, dir, EVIDENCE_NAMES, after)
    ensures Blocked(after, MANIFEST_PATH) <==> Blocked(stage, MANIFEST_PATH)
  {
    hide Above;
    forall name | name in EVIDENCE_NAMES
      ensures !Above(MANIFEST_PATH, EVIDENCE_ROOT + name) && !Above(EVIDENCE_ROOT + name, MANIFEST_PATH) {
      ManifestApart(name);
    }
    if q :| q in stage && (Above(q, MANIFEST_PATH) || Above(MANIFEST_PATH, q)) { assert q in after; }
  }

  lemma ClearMeansUnblocked(stage: Stage, paths: set<string>)
    requires stage.Keys == paths
    ensures KeepsClear(paths) <==> (forall name | name in EVIDENCE_NAMES :: !Blocked(stage, EVIDENCE_ROOT + name)) && !Blocked(stage, MANIFEST_PATH)
  {
    hide Above;
    if (forall name | name in EVIDENCE_NAMES :: !Blocked(stage, EVIDENCE_ROOT + name)) && !Blocked(stage, MANIFEST_PATH) {
      forall p, r | p in paths && r in Reserved() ensures !Above(p, r) && !Above(r, p) {
        assert !Blocked(stage, r);
      }
    }
    if KeepsClear(paths) {
      forall r | r in Reserved() ensures !Blocked(stage, r) {}
      forall name | name in EVIDENCE_NAMES ensures !Blocked(stage, EVIDENCE_ROOT + name) { assert EVIDENCE_ROOT + name in Reserved(); }
    }
  }

  /** Both copies together, and the place for the manifest. */
  lemma CopiesExactly(pf: Platform, t: Tree, dir: map<string, Bytes>, l: Lineage)
    ensures var runtime := CopyRuntime(pf, t, l.hashes, l.paths);
            && (runtime.Err? ==> !Copyable(pf, t, dir, l))
            && (runtime.Ok? ==>
                  && runtime.value == Copied(StagedOf(t, l.paths), RuntimeRecords(pf, t, l.paths))
                  && var evidence := CopyEvidence(pf, dir, StagedOf(t, l.paths), EVIDENCE_NAMES);
                  && (evidence.Ok? && !Blocked(evidence.value.stage, MANIFEST_PATH) <==> Copyable(pf, t, dir, l))
                  && (evidence.Ok? ==>
                        && EvidenceStaged(StagedOf(t, l.paths), dir, EVIDENCE_NAMES, evidence.value.stage)
                        && evidence.value.records == EvidenceRecords(pf, dir, EVIDENCE_NAMES)))
  {
    hide Blocked, Sha, EvidenceStaged, KeepsClear, Coexist, HashesMatch, CopyRuntime, CopyEvidence, EvidencePaths, EvidenceRecords, RuntimeRecords, Plain;
    CopyRuntimeExactly(pf, t, l.hashes, l.paths);
    var runtime := CopyRuntime(pf, t, l.hashes, l.paths);
    if runtime.Ok? {
      var stage := StagedOf(t, l.paths);
      assert stage.Keys == Elements(l.paths);
      EvidenceNamesAreSlashFree();
      CopyEvidenceExactly(pf, dir, stage, EVIDENCE_NAMES);
      ClearMeansUnblocked(stage, Elements(l.paths));
      var evidence := CopyEvidence(pf, dir, stage, EVIDENCE_NAMES);
      hide EVIDENCE_NAMES;
      if evidence.Ok? { ManifestBlocked(stage, dir, evidence.value.stage); }
    }
  }

  /** The builder succeeds on a lineage exactly when it is buildable; the package then holds the
      copies. */
  lemma BuildExactly(pf: Platform, t: Tree, dir: map<string, Bytes>, commit: string, l: Lineage)
    ensures BuildFrom(pf, t, dir, commit, l).Ok? <==> Buildable(pf, t, dir, l)
    ensures BuildFrom(pf, t, dir, commit, l).Ok? ==>
              Holds(pf, dir, commit, l, RuntimeRecords(pf, t, l.paths), EvidenceRecords(pf, dir, EVIDENCE_NAMES), StagedOf(t, l.paths),
                    BuildFrom(pf, t, dir, commit, l).value)
  {
    hide Blocked, HashOf, EvidenceStaged, Copyable, CopyRuntime, CopyEvidence, Packed,
         RuntimeItems, EvidenceRecords, RuntimeRecords, StagedOf, Holds, EVIDENCE_NAMES, MANIFEST_PATH;
    CopiesExactly(pf, t, dir, l);
    if CopyRuntime(pf, t, l.hashes, l.paths).Ok? {
      var evidence := CopyEvidence(pf, dir, StagedOf(t, l.paths), EVIDENCE_NAMES);
      if evidence.Ok? {
        PackedExactly(pf, commit, l, evidence.value.stage, RuntimeRecords(pf, t, l.paths), evidence.value.records);
        if BuildFrom(pf, t, dir, commit, l).Ok? {
          PackedHolds(pf, dir, commit, l, RuntimeRecords(pf, t, l.paths), evidence.value.records, StagedOf(t, l.paths), evidence.value.stage);
        }
      }
    }
  }

  lemma PackedExactly(pf: Platform, commit: string, l: Lineage, stage: Stage, runtime: seq<Record>, evidence: seq<Record>)
    ensures Packed(pf, commit, l, stage, runtime, evidence).Ok? <==>
              Str(HashOf(pf, RuntimeItems(runtime))) == Get(l.report, "runtimeHash") && !Blocked(stage, MANIFEST_PATH)
  {
    hide Blocked, HashOf, RuntimeItems, Manifest, ManifestMaterial, Archive;
  }

  lemma PackedHolds(pf: Platform, dir: map<string, Bytes>, commit: string, l: Lineage,
                    runtime: seq<Record>, evidence: seq<Record>, staged: Stage, stage: Stage)
    requires EvidenceStaged(staged, dir, EVIDENCE_NAMES, stage) && Packed(pf, commit, l, stage, runtime, evidence).Ok?
    ensures Holds(pf, dir, commit, l, runtime, evidence, staged, Packed(pf, commit, l, stage, runtime, evidence).value)
  {
    hide Blocked, HashOf, RuntimeItems, Manifest, ManifestMaterial, Archive, EvidenceStaged, EvidencePaths, Reserved;
    var p := Packed(pf, commit, l, stage, runtime, evidence).value;
    assert p.stage == stage[MANIFEST_PATH := p.stage[MANIFEST_PATH]];
    HoldsStaged(dir, staged, stage, p.stage[MANIFEST_PATH]);
  }

  lemma EvidenceNamesAreSlashFree()
    ensures forall name | name in EVIDENCE_NAMES :: '/' !in name
  {
    EvidenceNamesArePlain();
  }

  lemma HoldsStaged(dir: map<string, Bytes>, stage: Stage, after: Stage, manifest: Staged)
    requires EvidenceStaged(stage, dir, EVIDENCE_NAMES, after)
    ensures var full := after[MANIFEST_PATH := manifest];
            && full.Keys == stage.Keys + Reserved()
            && (forall name | name in EVIDENCE_NAMES :: name in dir && full[EVIDENCE_ROOT + name] == Staged(dir[name], "0644"))
            && (forall q | q in stage && q !in Reserved() :: full[q] == stage[q])
  {
    forall name | name in EVIDENCE_NAMES ensures EVIDENCE_ROOT + name != MANIFEST_PATH { ManifestApart(name); }
  }

  // ------------------------------------------------------------------ when the verifier accepts what was built

  lemma {:induction false} ReadPathsAreSafe(lines: seq<string>)
    requires ReadPaths(lines).Ok?
    ensures forall p | p in ReadPaths(lines).value :: SafeMemberName(p) == Ok(p)
  {
    hide Strip, SafeRuntimePath, SafeMemberName;
    if lines != [] {
      var n := |lines| - 1;
      ReadPathsAreSafe(lines[..n]);
      if SafeRuntimePath(lines[n]).Ok? { SafePathIsSafeMember(lines[n]); }
    }
  }

  lemma LineagePathsAreSafe(pf: Platform, dir: map<string, Bytes>, commit: string)
    requires ReadLineage(pf, dir, commit).Ok?
    ensures var l := ReadLineage(pf, dir, commit).value;
            && SafeNames(Elements(l.paths)) && Pairwise(l.paths)
            && "verification-report.json" in dir && ParseObject(pf, dir["verification-report.json"]) == Ok(l.report)
            && "evidence-manifest.json" in dir && ParseObject(pf, dir["evidence-manifest.json"]) == Ok(l.evidence)
            && Get(l.report, "verified") == Bool(true) && Get(l.evidence, "verified") == Bool(true)
  {
    hide ReadPaths, ReadShaLines, SplitLines, ParseObject, Less, SafeMemberName;
    var l := ReadLineage(pf, dir, commit).value;
    ReadPathsAreSafe(SplitLines(pf.readText(dir["runtime-files.txt"])));
    AscendingIsPairwise(l.paths);
  }

  lemma StageIsSound(paths: set<string>)
    requires SafeNames(paths) && Coexist(paths) && KeepsClear(paths)
    ensures SafeNames(paths + Reserved()) && Coexist(paths + Reserved())
  {
    hide Reserved, SafeMemberName, Above;
    ReservedAreSafe();
  }

  const CHECKED_KEYS := {"schema", "sourceCommit", "entrypoint", "lineageGraphHash", "runtimeHash", "runtimeFileCount",
                         "evidenceFileCount", "payloadFileCount"}
  const CONTENT_KEYS := {"payloadHash", "runtimeFiles", "evidenceFiles"}

  lemma Layers(pf: Platform, commit: string, l: Lineage, runtime: seq<Record>, evidence: seq<Record>)
    ensures CheckedFields(commit, l, |runtime|, |evidence|).Keys == CHECKED_KEYS
    ensures ContentFields(pf, runtime, evidence).Keys == CONTENT_KEYS
    ensures CHECKED_KEYS !! CONTENT_KEYS && "manifestHash" !in CHECKED_KEYS + CONTENT_KEYS && "manifestHash" !in PassedFields(l)
  {
    hide PassedFields, PayloadHash, Get, RecordsJson;
    DisjointLayers();
    PassedIsUnsigned(l);
  }

  lemma PassedIsUnsigned(l: Lineage)
    ensures "manifestHash" !in PassedFields(l)
  {
    hide Get;
  }

  lemma DisjointLayers()
    ensures CHECKED_KEYS !! CONTENT_KEYS && "manifestHash" !in CHECKED_KEYS && "manifestHash" !in CONTENT_KEYS
  {
    assert "payloadHash" !in CHECKED_KEYS && "runtimeFiles" !in CHECKED_KEYS && "evidenceFiles" !in CHECKED_KEYS;
  }

  /** A field of the manifest comes from the layer that declares it. */
  lemma ManifestField(pf: Platform, commit: string, l: Lineage, runtime: seq<Record>, evidence: seq<Record>, key: string)
    ensures var m := Manifest(pf, ManifestMaterial(pf, commit, l, runtime, evidence));
            && (key in CHECKED_KEYS ==> Get(m, key) == Get(CheckedFields(commit, l, |runtime|, |evidence|), key))
            && (key in CONTENT_KEYS ==> Get(m, key) == Get(ContentFields(pf, runtime, evidence), key))
  {
    hide PassedFields, CheckedFields, ContentFields, HashOf;
    Layers(pf, commit, l, runtime, evidence);
    hide CHECKED_KEYS, CONTENT_KEYS;
  }

  lemma ManifestIsSigned(pf: Platform, commit: string, l: Lineage, runtime: seq<Record>, evidence: seq<Record>)
    ensures var material := ManifestMaterial(pf, commit, l, runtime, evidence);
            var m := Manifest(pf, material);
            Get(m, "manifestHash") == Str(HashOf(pf, Obj(material))) && m - {"manifestHash"} == material
  {
    hide PassedFields, CheckedFields, ContentFields, HashOf, CHECKED_KEYS, CONTENT_KEYS;
    Layers(pf, commit, l, runtime, evidence);
    Signed(ManifestMaterial(pf, commit, l, runtime, evidence), Str(HashOf(pf, Obj(ManifestMaterial(pf, commit, l, runtime, evidence)))));
  }

  lemma Signed(material: Dict, hash: Json)
    requires "manifestHash" !in material
    ensures var m := material + map["manifestHash" := hash]; Get(m, "manifestHash") == hash && m - {"manifestHash"} == material
  {
  }

  lemma CheckedSays(commit: string, l: Lineage, runtime: nat, evidence: nat)
    ensures var c := CheckedFields(commit, l, runtime, evidence);
            && "schema" in CHECKED_KEYS && Get(c, "schema") == Str(PACKAGE_SCHEMA)
            && "sourceCommit" in CHECKED_KEYS && Get(c, "sourceCommit") == Str(commit)
            && "entrypoint" in CHECKED_KEYS && Get(c, "entrypoint") == Get(l.evidence, "entrypoint")
            && "lineageGraphHash" in CHECKED_KEYS && Get(c, "lineageGraphHash") == Get(l.report, "graphHash")
            && "runtimeHash" in CHECKED_KEYS && Get(c, "runtimeHash") == Get(l.report, "runtimeHash")
  {
  }

  lemma MaterialFields(pf: Platform, commit: string, l: Lineage, runtime: seq<Record>, evidence: seq<Record>)
    ensures var m := Manifest(pf, ManifestMaterial(pf, commit, l, runtime, evidence));
            && Get(m, "schema") == Str(PACKAGE_SCHEMA) && Get(m, "sourceCommit") == Str(commit)
            && Get(m, "entrypoint") == Get(l.evidence, "entrypoint")
            && Get(m, "lineageGraphHash") == Get(l.report, "graphHash") && Get(m, "runtimeHash") == Get(l.report, "runtimeHash")
  {
    hide Manifest, ManifestMaterial, Get;
    CheckedSays(commit, l, |runtime|, |evidence|);
    hide CheckedFields, CHECKED_KEYS;
    ManifestField(pf, commit, l, runtime, evidence, "schema");
    ManifestField(pf, commit, l, runtime, evidence, "sourceCommit");
    ManifestField(pf, commit, l, runtime, evidence, "entrypoint");
    ManifestField(pf, commit, l, runtime, evidence, "lineageGraphHash");
    ManifestField(pf, commit, l, runtime, evidence, "runtimeHash");
  }

  lemma MaterialCounts(pf: Platform, commit: string, l: Lineage, runtime: seq<Record>, evidence: seq<Record>)
    ensures var m := Manifest(pf, ManifestMaterial(pf, commit, l, runtime, evidence));
            && Get(m, "runtimeFileCount") == Num(|runtime|) && Get(m, "evidenceFileCount") == Num(|evidence|)
            && Get(m, "payloadFileCount") == Num(|runtime| + |evidence|)
  {
    hide Manifest, ManifestMaterial;
    ManifestField(pf, commit, l, runtime, evidence, "runtimeFileCount");
    ManifestField(pf, commit, l, runtime, evidence, "evidenceFileCount");
    ManifestField(pf, commit, l, runtime, evidence, "payloadFileCount");
  }

  lemma MaterialRecords(pf: Platform, commit: string, l: Lineage, runtime: seq<Record>, evidence: seq<Record>)
    ensures var m := Manifest(pf, ManifestMaterial(pf, commit, l, runtime, evidence));
            && Get(m, "payloadHash") == Str(PayloadHash(pf, SortBy(runtime + evidence, (r: Record) => r.path)))
            && Get(m, "runtimeFiles") == Arr(RecordsJson(runtime)) && Get(m, "evidenceFiles") == Arr(RecordsJson(evidence))
  {
    hide Manifest, ManifestMaterial, PayloadHash, RecordsJson;
    ManifestField(pf, commit, l, runtime, evidence, "payloadHash");
    ManifestField(pf, commit, l, runtime, evidence, "runtimeFiles");
    ManifestField(pf, commit, l, runtime, evidence, "evidenceFiles");
  }

  /** Sorting the records twice changes nothing. */
  lemma PayloadHashIsStable(pf: Platform, records: seq<Record>)
    ensures PayloadHash(pf, SortBy(records, (r: Record) => r.path)) == PayloadHash(pf, records)
  {
    var key := (r: Record) => r.path;
    hide SortBy, OrderedBy;
    SortByOrders(records, key);
    SortByFixes(SortBy(records, key), key);
  }

  lemma DeclaresBothParts(pf: Platform, commit: string, l: Lineage, runtime: seq<Record>, evidence: seq<Record>)
    ensures var m := Manifest(pf, ManifestMaterial(pf, commit, l, runtime, evidence));
            DeclaredRecords(m) == RecordsJson(runtime + evidence)
  {
    hide Manifest, ManifestMaterial, PayloadHash, RecordJson;
    MaterialRecords(pf, commit, l, runtime, evidence);
    assert RecordsJson(runtime) + RecordsJson(evidence) == RecordsJson(runtime + evidence);
  }

  lemma TotalsHold(pf: Platform, commit: string, l: Lineage, runtime: seq<Record>, evidence: seq<Record>)
    ensures var m := Manifest(pf, ManifestMaterial(pf, commit, l, runtime, evidence));
            TotalsAccepted(pf, m, runtime + evidence) <==> Get(l.evidence, "entrypoint") == Str(ENTRYPOINT)
  {
    hide Manifest, ManifestMaterial, PayloadHash, RecordJson, DeclaredRecords;
    MaterialFields(pf, commit, l, runtime, evidence);
    MaterialCounts(pf, commit, l, runtime, evidence);
    MaterialRecords(pf, commit, l, runtime, evidence);
    PayloadHashIsStable(pf, runtime + evidence);
    DeclaresBothParts(pf, commit, l, runtime, evidence);
  }

  lemma HeaderHolds(pf: Platform, commit: string, l: Lineage, runtime: seq<Record>, evidence: seq<Record>)
    requires Faithful(pf)
    ensures var m := Manifest(pf, ManifestMaterial(pf, commit, l, runtime, evidence));
            && HeaderAccepted(pf, m, commit)
            && DeclaredRecords(m) == RecordsJson(runtime + evidence)
            && (TotalsAccepted(pf, m, runtime + evidence) <==> Get(l.evidence, "entrypoint") == Str(ENTRYPOINT))
  {
    hide Manifest, ManifestMaterial, HashOf, PayloadHash, RecordsJson, TotalsAccepted, DeclaredRecords;
    DeclaresBothParts(pf, commit, l, runtime, evidence);
    TotalsHold(pf, commit, l, runtime, evidence);
    MaterialFields(pf, commit, l, runtime, evidence);
    ManifestIsSigned(pf, commit, l, runtime, evidence);
    MaterialRecords(pf, commit, l, runtime, evidence);
  }

  /** The declared records of a built package match its files. */
  lemma RecordsMatch(pf: Platform, t: Tree, dir: map<string, Bytes>, commit: string, l: Lineage,
                     runtime: seq<Record>, evidence: seq<Record>, staged: Stage, p: Package)
    requires Copies(pf, t, dir, l, runtime, evidence, staged) && Holds(pf, dir, commit, l, runtime, evidence, staged, p)
    requires Elements(l.paths) !! Reserved()
    ensures AllMatch(pf, p.stage, runtime + evidence)
  {
    hide Sha, Manifest, ManifestMaterial, Archive, EVIDENCE_NAMES;
    forall r | r in runtime ensures Matches(pf, p.stage, r.path, r) {
      var k :| 0 <= k < |runtime| && runtime[k] == r;
      assert l.paths[k] in Elements(l.paths) && p.stage[l.paths[k]] == staged[l.paths[k]];
    }
    forall r | r in evidence ensures Matches(pf, p.stage, r.path, r) {
      var k :| 0 <= k < |evidence| && evidence[k] == r;
      assert EVIDENCE_NAMES[k] in EVIDENCE_NAMES && EVIDENCE_ROOT + EVIDENCE_NAMES[k] in Reserved();
    }
  }

  lemma EvidenceNamesDiffer()
    ensures Pairwise(EVIDENCE_NAMES)
  {
    var n := EVIDENCE_NAMES;
    assert |n[0]| == 20 && |n[1]| == 22 && |n[2]| == 18 && |n[3]| == 17 && |n[4]| == 20 && |n[5]| == 24 && |n[6]| == 22;
    assert n[0][0] == 's' && n[4][0] == 'r' && n[1][0] == 'r' && n[6][0] == 'e';
  }

  /** The declared paths are distinct exactly when the runtime leaves the reserved names alone. */
  lemma DeclaredPaths(pf: Platform, t: Tree, dir: map<string, Bytes>, l: Lineage, runtime: seq<Record>, evidence: seq<Record>, staged: Stage)
    requires Copies(pf, t, dir, l, runtime, evidence, staged) && Pairwise(l.paths)
    ensures PathSet(runtime + evidence) == Elements(l.paths) + EvidencePaths(EVIDENCE_NAMES)
    ensures DistinctPaths(runtime + evidence) && MANIFEST_PATH !in PathSet(runtime + evidence) <==> Elements(l.paths) !! Reserved()
  {
    hide Sha, EVIDENCE_NAMES, HashesMatch;
    var n := |l.paths|;
    var all := runtime + evidence;
    assert forall k | 0 <= k < n :: all[k].path == l.paths[k];
    assert forall k | n <= k < |all| :: all[k].path == EVIDENCE_ROOT + EVIDENCE_NAMES[k - n];
    EvidenceNamesDiffer();
    PathsByIndex(all, l.paths, EVIDENCE_NAMES);
    hide PathSet, DistinctPaths, Pairwise;
    forall name | name in EVIDENCE_NAMES ensures EVIDENCE_ROOT + name != MANIFEST_PATH { ManifestApart(name); }
  }

  lemma PathsByIndex(all: seq<Record>, paths: seq<string>, names: seq<string>)
    requires |all| == |paths| + |names|
    requires forall k | 0 <= k < |paths| :: all[k].path == paths[k]
    requires forall k | |paths| <= k < |all| :: all[k].path == EVIDENCE_ROOT + names[k - |paths|]
    requires Pairwise(paths) && Pairwise(names)
    ensures PathSet(all) == Elements(paths) + EvidencePaths(names)
    ensures DistinctPaths(all) <==> Elements(paths) !! EvidencePaths(names)
  {
    var n := |paths|;
    forall p | p in Elements(paths) + EvidencePaths(names) ensures p in PathSet(all) {
      if p in paths {
        var k :| 0 <= k < n && paths[k] == p;
        assert all[k] in all;
      } else {
        var name :| name in names && p == EVIDENCE_ROOT + name;
        var k :| 0 <= k < |names| && names[k] == name;
        assert all[n + k] in all;
      }
    }
    forall p | p in PathSet(all) ensures p in Elements(paths) + EvidencePaths(names) {
      var r :| r in all && r.path == p;
      var k :| 0 <= k < |all| && all[k] == r;
      if k >= n { assert names[k - n] in names; }
    }
    if DistinctPaths(all) {
      forall p | p in paths ensures p !in EvidencePaths(names) {
        var i :| 0 <= i < n && paths[i] == p;
        forall name | name in names ensures EVIDENCE_ROOT + name != p {
          var j :| 0 <= j < |names| && names[j] == name;
          assert all[i].path != all[n + j].path;
        }
      }
    }
    if Elements(paths) !! EvidencePaths(names) {
      forall i, j | 0 <= i < j < |all| ensures all[i].path != all[j].path {
        if i < n && n <= j {
          assert all[i].path in Elements(paths) && names[j - n] in names;
        } else if n <= i {
          assert names[i - n] != names[j - n];
          assert names[i - n] == all[i].path[|EVIDENCE_ROOT|..] && names[j - n] == all[j].path[|EVIDENCE_ROOT|..];
        }
      }
    }
  }

  lemma EmbeddedLineage(pf: Platform, dir: map<string, Bytes>, commit: string, l: Lineage,
                        runtime: seq<Record>, evidence: seq<Record>, staged: Stage, p: Package)
    requires Holds(pf, dir, commit, l, runtime, evidence, staged, p)
    requires "verification-report.json" in dir && ParseObject(pf, dir["verification-report.json"]) == Ok(l.report)
    requires "evidence-manifest.json" in dir && ParseObject(pf, dir["evidence-manifest.json"]) == Ok(l.evidence)
    requires Get(l.report, "verified") == Bool(true) && Get(l.evidence, "verified") == Bool(true)
    ensures LineageAccepted(pf, p.stage, p.manifest) <==> Get(l.report, "sourceCommit") == Str(commit)
  {
    assert p.stage[EVIDENCE_ROOT + "verification-report.json"].data == dir["verification-report.json"] &&
           p.stage[EVIDENCE_ROOT + "evidence-manifest.json"].data == dir["evidence-manifest.json"] by { EvidenceAt(pf, dir, commit, l, runtime, evidence, staged, p); }
    assert EVIDENCE_ROOT + "verification-report.json" in p.stage && EVIDENCE_ROOT + "evidence-manifest.json" in p.stage by {
      EvidenceAt(pf, dir, commit, l, runtime, evidence, staged, p);
    }
    MaterialFields(pf, commit, l, runtime, evidence);
    hide Manifest, ManifestMaterial, Archive, ParseObject, Reserved;
  }

  lemma EvidenceAt(pf: Platform, dir: map<string, Bytes>, commit: string, l: Lineage,
                   runtime: seq<Record>, evidence: seq<Record>, staged: Stage, p: Package)
    requires Holds(pf, dir, commit, l, runtime, evidence, staged, p)
    ensures forall name | name in ["verification-report.json", "evidence-manifest.json"] ::
              EVIDENCE_ROOT + name in p.stage && name in dir && p.stage[EVIDENCE_ROOT + name].data == dir[name]
  {
    hide Manifest, ManifestMaterial, Archive;
    assert "verification-report.json" in EVIDENCE_NAMES by { assert EVIDENCE_NAMES[5] == "verification-report.json"; }
    assert "evidence-manifest.json" in EVIDENCE_NAMES by { assert EVIDENCE_NAMES[6] == "evidence-manifest.json"; }
    hide EVIDENCE_NAMES;
  }

  lemma RecordsAccepted(pf: Platform, t: Tree, dir: map<string, Bytes>, commit: string, l: Lineage,
                        runtime: seq<Record>, evidence: seq<Record>, staged: Stage, p: Package)
    requires Faithful(pf) && Copies(pf, t, dir, l, runtime, evidence, staged) && Holds(pf, dir, commit, l, runtime, evidence, staged, p)
    requires SafeNames(Elements(l.paths)) && Pairwise(l.paths)
    ensures var checked := CheckRecords(pf, p.stage, RecordsJson(runtime + evidence));
            && (checked.Ok? <==> Elements(l.paths) !! Reserved())
            && (checked.Ok? ==> checked.value == Checked(p.stage.Keys, runtime + evidence))
  {
    hide Manifest, ManifestMaterial, Archive, EVIDENCE_NAMES, EvidencePaths, SafeMemberName, CheckRecords, RecordsJson, Matches, Faithful,
         RuntimeRecords, EvidenceRecords, DistinctPaths, Pairwise;
    DeclaredPaths(pf, t, dir, l, runtime, evidence, staged);
    ReservedAreSafe();
    assert staged.Keys == Elements(l.paths);
    assert p.stage.Keys == {MANIFEST_PATH} + PathSet(runtime + evidence);
    if Elements(l.paths) !! Reserved() { RecordsMatch(pf, t, dir, commit, l, runtime, evidence, staged, p); }
    hide Holds, Copies;
    WrittenNamesAreSafe(runtime + evidence, Elements(l.paths));
    WrittenRecordsAccepted(pf, p.stage, runtime + evidence);
  }

  lemma WrittenNamesAreSafe(records: seq<Record>, paths: set<string>)
    requires PathSet(records) == paths + EvidencePaths(EVIDENCE_NAMES) && SafeNames(paths) && SafeNames(Reserved())
    ensures forall r | r in records :: SafeMemberName(r.path) == Ok(r.path)
  {
    hide SafeMemberName, EvidencePaths, EVIDENCE_NAMES;
    forall r | r in records ensures SafeMemberName(r.path) == Ok(r.path) { assert r.path in PathSet(records); }
  }

  lemma ManifestReadsBack(pf: Platform, dir: map<string, Bytes>, commit: string, l: Lineage,
                          runtime: seq<Record>, evidence: seq<Record>, staged: Stage, p: Package)
    requires Faithful(pf) && Holds(pf, dir, commit, l, runtime, evidence, staged, p)
    ensures MANIFEST_PATH in p.stage && ParseObject(pf, p.stage[MANIFEST_PATH].data) == Ok(p.manifest)
    ensures p.manifest == Manifest(pf, ManifestMaterial(pf, commit, l, runtime, evidence))
  {
    hide Manifest, ManifestMaterial, Archive, EVIDENCE_NAMES;
    assert pf.parse(pf.render(Obj(p.manifest))) == Some(Obj(p.manifest));
  }

  lemma BuiltStageReadsBack(pf: Platform, dir: map<string, Bytes>, commit: string, l: Lineage,
                            runtime: seq<Record>, evidence: seq<Record>, staged: Stage, p: Package)
    requires Holds(pf, dir, commit, l, runtime, evidence, staged, p)
    requires SafeNames(staged.Keys) && Coexist(staged.Keys) && KeepsClear(staged.Keys)
    ensures ReadMembers(p.members) == Ok(p.stage)
  {
    hide Manifest, ManifestMaterial, Archive, SafeNames, Coexist, KeepsClear, EVIDENCE_NAMES, Reserved;
    StageIsSound(staged.Keys);
    ArchiveRoundTrip(p.stage);
  }

  /** What the builder packs, the verifier accepts: exactly when the runtime stays off the reserved
      names, the entrypoint is the expected one, and the report names the commit as text. */
  lemma BuiltThenVerified(pf: Platform, t: Tree, dir: map<string, Bytes>, commit: string)
    requires Faithful(pf) && ReadLineage(pf, dir, commit).Ok? && Build(pf, t, dir, commit).Ok?
    ensures var l := ReadLineage(pf, dir, commit).value;
            Verified(pf, Build(pf, t, dir, commit).value.members, commit).Ok? <==>
              && Elements(l.paths) !! Reserved()
              && Get(l.evidence, "entrypoint") == Str(ENTRYPOINT)
              && Get(l.report, "sourceCommit") == Str(commit)
  {
    hide ReadLineage, BuildFrom, Verified;
    var l := ReadLineage(pf, dir, commit).value;
    LineagePathsAreSafe(pf, dir, commit);
    LineageThenVerified(pf, t, dir, commit, l);
  }

  lemma LineageThenVerified(pf: Platform, t: Tree, dir: map<string, Bytes>, commit: string, l: Lineage)
    requires Faithful(pf) && BuildFrom(pf, t, dir, commit, l).Ok?
    requires SafeNames(Elements(l.paths)) && Pairwise(l.paths)
    requires "verification-report.json" in dir && ParseObject(pf, dir["verification-report.json"]) == Ok(l.report)
    requires "evidence-manifest.json" in dir && ParseObject(pf, dir["evidence-manifest.json"]) == Ok(l.evidence)
    requires Get(l.report, "verified") == Bool(true) && Get(l.evidence, "verified") == Bool(true)
    ensures Verified(pf, BuildFrom(pf, t, dir, commit, l).value.members, commit).Ok? <==>
              Elements(l.paths) !! Reserved() && Get(l.evidence, "entrypoint") == Str(ENTRYPOINT) && Get(l.report, "sourceCommit") == Str(commit)
  {
    hide BuildFrom, Holds, Faithful, SafeNames, Reserved, HashOf, RuntimeItems, EVIDENCE_NAMES, Verified, RuntimeRecords, EvidenceRecords,
         Pairwise, Coexist, KeepsClear, HashesMatch, ParseObject, FileAt;
    BuildExactly(pf, t, dir, commit, l);
    var staged := StagedOf(t, l.paths);
    assert staged.Keys == Elements(l.paths);
    BuiltVerdict(pf, t, dir, commit, l, RuntimeRecords(pf, t, l.paths), EvidenceRecords(pf, dir, EVIDENCE_NAMES), staged,
                 BuildFrom(pf, t, dir, commit, l).value);
  }

  lemma BuiltVerdict(pf: Platform, t: Tree, dir: map<string, Bytes>, commit: string, l: Lineage,
                     runtime: seq<Record>, evidence: seq<Record>, staged: Stage, p: Package)
    requires Faithful(pf) && Copies(pf, t, dir, l, runtime, evidence, staged) && Holds(pf, dir, commit, l, runtime, evidence, staged, p)
    requires staged.Keys == Elements(l.paths) && SafeNames(Elements(l.paths)) && Pairwise(l.paths) && Coexist(staged.Keys) && KeepsClear(staged.Keys)
    requires "verification-report.json" in dir && ParseObject(pf, dir["verification-report.json"]) == Ok(l.report)
    requires "evidence-manifest.json" in dir && ParseObject(pf, dir["evidence-manifest.json"]) == Ok(l.evidence)
    requires Get(l.report, "verified") == Bool(true) && Get(l.evidence, "verified") == Bool(true)
    ensures Verified(pf, p.members, commit).Ok? <==>
              Elements(l.paths) !! Reserved() && Get(l.evidence, "entrypoint") == Str(ENTRYPOINT) && Get(l.report, "sourceCommit") == Str(commit)
  {
    hide Holds, Copies, Faithful, ReadMembers, CheckRecords, HeaderAccepted, TotalsAccepted, LineageAccepted, ParseObject, DeclaredRecords,
         RecordsJson, Manifest, ManifestMaterial, Reserved, SafeNames, Coexist, KeepsClear, Pairwise;
    BuiltStageReadsBack(pf, dir, commit, l, runtime, evidence, staged, p);
    ManifestReadsBack(pf, dir, commit, l, runtime, evidence, staged, p);
    HeaderHolds(pf, commit, l, runtime, evidence);
    RecordsAccepted(pf, t, dir, commit, l, runtime, evidence, staged, p);
    EmbeddedLineage(pf, dir, commit, l, runtime, evidence, staged, p);
  }
}
