/** What the package builder takes and leaves, told in terms of the lineage directory, the source tree and
    the package alone. */
module PackageContract {
  import opened Sorting
  import opened TextOrder
  import opened Json
  import opened Platform
  import opened Wrappers
  import opened PosixPath
  import opened LineageText
  import opened LineageCompiler
  import opened RuntimePackage
  import opened PackageTheorems
  import opened ThreeStages
  import opened TextContract
  import ArchiveContract

  // ------------------------------------------------------------------ the lineage directory

  ghost predicate IsObject(pf: Platform, dir: map<string, Bytes>, name: string, d: Dict) {
    name in dir && pf.parse(dir[name]) == Some(Obj(d))
  }

  /** The document says that it is verified, and for which commit. */
  ghost predicate Vouches(pf: Platform, d: Dict, commit: string) {
    Get(d, "verified") == Bool(true) && pf.str(Get(d, "sourceCommit")) == commit
  }

  /** What a lineage directory must hold to be packed for the commit, and what is read from it. */
  ghost predicate MayPack(pf: Platform, dir: map<string, Bytes>, commit: string, l: Lineage) {
    && IsObject(pf, dir, "verification-report.json", l.report) && Vouches(pf, l.report, commit)
    && IsObject(pf, dir, "evidence-manifest.json", l.evidence) && Vouches(pf, l.evidence, commit)
    && IsObject(pf, dir, "registry-snapshot.json", l.snapshot) && IsObject(pf, dir, "source-identity.json", l.identity)
    && "runtime-files.txt" in dir && ListsPaths(pf.readText(dir["runtime-files.txt"]), l.paths)
    && "runtime-files.sha256" in dir && ListsDigests(pf.readText(dir["runtime-files.sha256"]), l.hashes)
    && forall p :: p in l.paths <==> p in l.hashes
  }

  lemma LineageExactly(pf: Platform, dir: map<string, Bytes>, commit: string, l: Lineage)
    ensures ReadLineage(pf, dir, commit) == Ok(l) <==> MayPack(pf, dir, commit, l)
  {
    hide RuntimeList, ReadShaLines, SplitLines, ListsPaths, ListsDigests, Get;
    if "runtime-files.txt" in dir { ListReadExactly(pf.readText(dir["runtime-files.txt"]), l.paths); }
    if "runtime-files.sha256" in dir { DigestFileExactly(pf.readText(dir["runtime-files.sha256"]), l.hashes); }
    assert Elements(l.paths) == l.hashes.Keys <==> forall p :: p in l.paths <==> p in l.hashes by {
      assert forall p :: p in Elements(l.paths) <==> p in l.paths;
    }
    ObjectsExactly(pf, dir);
    hide IsObject, ReadObject;
    ReadingExactly(pf, dir, commit, l);
  }

  lemma ObjectsExactly(pf: Platform, dir: map<string, Bytes>)
    ensures forall name, d :: ReadObject(pf, dir, name) == Ok(d) <==> IsObject(pf, dir, name, d)
  {
  }

  lemma ReadingExactly(pf: Platform, dir: map<string, Bytes>, commit: string, l: Lineage)
    requires forall name, d :: ReadObject(pf, dir, name) == Ok(d) <==> IsObject(pf, dir, name, d)
    requires "runtime-files.txt" in dir ==>
               (RuntimeList(pf.readText(dir["runtime-files.txt"])) == Ok(l.paths) <==> ListsPaths(pf.readText(dir["runtime-files.txt"]), l.paths))
    requires "runtime-files.sha256" in dir ==>
               (ReadShaLines(SplitLines(pf.readText(dir["runtime-files.sha256"]))) == Ok(l.hashes) <==>
                ListsDigests(pf.readText(dir["runtime-files.sha256"]), l.hashes))
    requires Elements(l.paths) == l.hashes.Keys <==> forall p :: p in l.paths <==> p in l.hashes
    ensures ReadLineage(pf, dir, commit) == Ok(l) <==> MayPack(pf, dir, commit, l)
  {
    hide RuntimeList, ReadShaLines, SplitLines, ListsPaths, ListsDigests, Get, IsObject, ReadObject;
  }

  // ------------------------------------------------------------------ when the builder succeeds

  const LINEAGE := ["source-identity.json", "registry-snapshot.json", "lineage-graph.json", "runtime-files.txt",
                    "runtime-files.sha256", "verification-report.json", "evidence-manifest.json"]

  /** The files the builder adds to the runtime. */
  ghost predicate Added(path: string) {
    path == ArchiveContract.MANIFEST_MEMBER || exists name :: name in LINEAGE && path == "release/competition-lineage/" + name
  }

  ghost predicate InPackage(l: Lineage, path: string) {
    path in l.paths || Added(path)
  }

  /** No file of the package lies below another. */
  ghost predicate NoneBelow(l: Lineage) {
    forall p, q | InPackage(l, p) && InPackage(l, q) :: !(p + "/" <= q)
  }

  /** Path, hash and size of the listed files, one by one. */
  ghost predicate RuntimeIs(pf: Platform, t: Tree, paths: seq<string>, items: seq<Json>) {
    && |items| == |paths|
    && forall k | 0 <= k < |paths| ::
         && paths[k] in t.files
         && items[k] == Obj(map["path" := Str(paths[k]), "sha256" := Str("sha256:" + pf.hex(t.files[paths[k]].data)),
                                "size" := Num(|t.files[paths[k]].data|)])
  }

  ghost predicate Packs(pf: Platform, t: Tree, dir: map<string, Bytes>, l: Lineage) {
    && (forall p | p in l.paths :: p in t.files && p in l.hashes && pf.hex(t.files[p].data) == l.hashes[p])
    && (forall name | name in LINEAGE :: name in dir)
    && NoneBelow(l)
    && exists items :: RuntimeIs(pf, t, l.paths, items) && Get(l.report, "runtimeHash") == Str("sha256:" + pf.hex(pf.canon(Arr(items))))
  }

  lemma ReservedExactly(p: string)
    ensures p in Reserved() <==> Added(p)
  {
    ArchiveContract.ManifestIsThere();
    ArchiveContract.EvidenceIsThere();
    hide EVIDENCE_ROOT, MANIFEST_PATH;
    assert EVIDENCE_NAMES == LINEAGE;
  }

  lemma ClearExactly(l: Lineage)
    ensures Coexist(Elements(l.paths)) && KeepsClear(Elements(l.paths)) <==> NoneBelow(l)
  {
    forall p ensures p in Reserved() <==> Added(p) { ReservedExactly(p); }
    forall p, q ensures Above(p, q) <==> p + "/" <= q { AboveExactly(p, q); }
    ReservedAreSafe();
    hide Reserved, Added, Above;
    assert forall p :: p in Elements(l.paths) <==> p in l.paths;
    if NoneBelow(l) {
      forall p, q | p in Elements(l.paths) && q in Elements(l.paths) ensures !Above(p, q) { assert InPackage(l, p) && InPackage(l, q); }
      forall p, r | p in Elements(l.paths) && r in Reserved() ensures !Above(p, r) && !Above(r, p) { assert InPackage(l, p) && InPackage(l, r); }
    }
    if Coexist(Elements(l.paths)) && KeepsClear(Elements(l.paths)) {
      forall p, q | InPackage(l, p) && InPackage(l, q) ensures !(p + "/" <= q) { assert !Above(p, q); }
    }
  }

  lemma HashesExactly(pf: Platform, t: Tree, l: Lineage)
    ensures HashesMatch(pf, t, l.hashes, l.paths) <==> forall p | p in l.paths :: p in t.files && p in l.hashes && pf.hex(t.files[p].data) == l.hashes[p]
  {
    forall a: string, b: string ensures "sha256:" + a == "sha256:" + b <==> a == b { assert ("sha256:" + a)[7..] == a && ("sha256:" + b)[7..] == b; }
  }

  lemma RuntimeExactly(pf: Platform, t: Tree, paths: seq<string>, items: seq<Json>)
    requires forall p | p in paths :: p in t.files
    ensures RuntimeIs(pf, t, paths, items) <==> Arr(items) == RuntimeItems(RuntimeRecords(pf, t, paths))
  {
    var records := RuntimeRecords(pf, t, paths);
    var listed := RuntimeItems(records).items;
    forall k | 0 <= k < |paths|
      ensures listed[k] == Obj(map["path" := Str(paths[k]), "sha256" := Str("sha256:" + pf.hex(t.files[paths[k]].data)),
                                   "size" := Num(|t.files[paths[k]].data|)]) {
      assert paths[k] in paths && records[k].path == paths[k];
    }
    if RuntimeIs(pf, t, paths, items) { assert items == listed; }
  }

  /** The builder succeeds on a lineage exactly when every file is there as listed, none below another,
      and the report has their hash. */
  lemma PacksExactly(pf: Platform, t: Tree, dir: map<string, Bytes>, l: Lineage)
    ensures Buildable(pf, t, dir, l) <==> Packs(pf, t, dir, l)
  {
    HashesExactly(pf, t, l);
    ClearExactly(l);
    assert EVIDENCE_NAMES == LINEAGE;
    hide LINEAGE, EVIDENCE_NAMES, HashesMatch, KeepsClear, Coexist, NoneBelow, Get, RuntimeIs, RuntimeItems, RuntimeRecords;
    if forall p | p in l.paths :: p in t.files {
      forall items ensures RuntimeIs(pf, t, l.paths, items) <==> Arr(items) == RuntimeItems(RuntimeRecords(pf, t, l.paths)) {
        RuntimeExactly(pf, t, l.paths, items);
      }
      assert RuntimeIs(pf, t, l.paths, RuntimeItems(RuntimeRecords(pf, t, l.paths)).items);
    }
  }

  lemma BuildsExactly(pf: Platform, t: Tree, dir: map<string, Bytes>, commit: string)
    ensures Build(pf, t, dir, commit).Ok? <==> exists l :: MayPack(pf, dir, commit, l) && Packs(pf, t, dir, l)
  {
    hide ReadLineage, MayPack, Packs, BuildFrom;
    forall l ensures ReadLineage(pf, dir, commit) == Ok(l) <==> MayPack(pf, dir, commit, l) { LineageExactly(pf, dir, commit, l); }
    if ReadLineage(pf, dir, commit).Ok? { FromLineage(pf, t, dir, commit, ReadLineage(pf, dir, commit).value); }
  }

  lemma FromLineage(pf: Platform, t: Tree, dir: map<string, Bytes>, commit: string, l: Lineage)
    ensures BuildFrom(pf, t, dir, commit, l).Ok? <==> Packs(pf, t, dir, l)
  {
    hide BuildFrom, Packs, Buildable, Holds, RuntimeRecords, EvidenceRecords, StagedOf;
    BuildExactly(pf, t, dir, commit, l);
    PacksExactly(pf, t, dir, l);
  }

  // ------------------------------------------------------------------ what a package holds

  /** Path, hash, size and mode of the file. */
  ghost predicate Recorded(pf: Platform, r: Record, path: string, data: Bytes, mode: string) {
    r.path == path && r.sha256 == "sha256:" + pf.hex(data) && r.size == |data| && r.mode == mode
  }

  /** One record for each runtime file in the order of the list; executable files keep that. */
  ghost predicate RuntimeRecorded(pf: Platform, t: Tree, l: Lineage, records: seq<Record>) {
    && |records| == |l.paths|
    && forall k | 0 <= k < |l.paths| ::
         && l.paths[k] in t.files
         && Recorded(pf, records[k], l.paths[k], t.files[l.paths[k]].data, if t.files[l.paths[k]].executable then "0755" else "0644")
  }

  ghost predicate EvidenceRecorded(pf: Platform, dir: map<string, Bytes>, records: seq<Record>) {
    && |records| == |LINEAGE|
    && forall k | 0 <= k < |LINEAGE| ::
         LINEAGE[k] in dir && Recorded(pf, records[k], "release/competition-lineage/" + LINEAGE[k], dir[LINEAGE[k]], "0644")
  }

  ghost predicate ItemsAre(records: seq<Record>, items: seq<Json>) {
    && |items| == |records|
    && forall k | 0 <= k < |items| ::
         items[k] == Obj(map["path" := Str(records[k].path), "sha256" := Str(records[k].sha256), "size" := Num(records[k].size),
                             "mode" := Str(records[k].mode)])
  }

  /** The hash is over the records in the order of their paths. */
  ghost predicate PayloadIs(pf: Platform, records: seq<Record>, hash: Json) {
    exists listing: seq<Record>, items ::
      && multiset(listing) == multiset(records) && (forall i, j | 0 <= i < j < |listing| :: !Less(listing[j].path, listing[i].path))
      && ItemsAre(listing, items) && hash == Str("sha256:" + pf.hex(pf.canon(Arr(items))))
  }

  /** The manifest of a package. */
  ghost predicate ManifestSays(pf: Platform, t: Tree, dir: map<string, Bytes>, commit: string, l: Lineage, m: Dict) {
    exists runtime, evidence, runtimeItems, evidenceItems, payloadHash ::
      && RuntimeRecorded(pf, t, l, runtime) && EvidenceRecorded(pf, dir, evidence)
      && ItemsAre(runtime, runtimeItems) && ItemsAre(evidence, evidenceItems) && PayloadIs(pf, runtime + evidence, payloadHash)
      && Get(m, "manifestHash") == Str("sha256:" + pf.hex(pf.canon(Obj(m - {"manifestHash"}))))
      && m - {"manifestHash"} == Passed(l) + Identity(commit, l) +
           map["payloadHash" := payloadHash, "runtimeFiles" := Arr(runtimeItems), "evidenceFiles" := Arr(evidenceItems)]
  }

  function Passed(l: Lineage): Dict {
    map["packageType" := Str("competition-public-runtime"), "sourceRepository" := Get(l.identity, "publicRepository"),
        "motherRepository" := Get(l.identity, "motherRepository"), "motherCommit" := Get(l.identity, "motherCommit"),
        "registryVersion" := Get(l.snapshot, "registryVersion"), "registryRootHash" := Get(l.report, "registryRootHash"),
        "registrySnapshotHash" := Get(l.evidence, "registrySnapshotHash"), "lineageVerificationHash" := Get(l.report, "verificationHash"),
        "deploymentContract" := Obj(map[
          "immutableDirectory" := Bool(true), "currentSymlinkSwitchRequired" := Bool(true), "environmentVariablesExternal" := Bool(true),
          "databaseExternal" := Bool(true), "uploadedReportsExternal" := Bool(true), "switchAfterCandidateSmokeOnly" := Bool(true)])]
  }

  function Identity(commit: string, l: Lineage): Dict {
    map["schema" := Str("competition.runtime_package.v1"), "sourceCommit" := Str(commit), "entrypoint" := Get(l.evidence, "entrypoint"),
        "lineageGraphHash" := Get(l.report, "graphHash"), "runtimeHash" := Get(l.report, "runtimeHash"),
        "runtimeFileCount" := Num(|l.paths|), "evidenceFileCount" := Num(7), "payloadFileCount" := Num(|l.paths| + 7)]
  }

  /** The package's files: what was listed, the lineage beside it, the manifest over everything. */
  ghost predicate StageIs(pf: Platform, t: Tree, dir: map<string, Bytes>, l: Lineage, m: Dict, stage: Stage) {
    && (forall p :: p in stage <==> InPackage(l, p))
    && stage[ArchiveContract.MANIFEST_MEMBER] == Staged(pf.render(Obj(m)), "0644")
    && (forall name | name in LINEAGE :: name in dir && stage["release/competition-lineage/" + name] == Staged(dir[name], "0644"))
    && forall p | p in l.paths && !Added(p) ::
         p in t.files && stage[p] == Staged(t.files[p].data, if t.files[p].executable then "0755" else "0644")
  }

  /** A directory of the package. */
  ghost predicate IsDirectory(stage: Stage, name: string) {
    name != "" && exists p :: p in stage && name + "/" <= p
  }

  /** Files and directories, each once, in the order of their names. */
  ghost predicate ArchiveIs(stage: Stage, members: seq<Member>) {
    && (forall i, j | 0 <= i < j < |members| :: Less(members[i].name, members[j].name))
    && (forall name :: (exists k :: 0 <= k < |members| && members[k].name == name) <==> name in stage || IsDirectory(stage, name))
    && forall k | 0 <= k < |members| ::
         members[k] == if members[k].name in stage then Member(members[k].name, RegularFile, stage[members[k].name].data, stage[members[k].name].mode)
                       else Member(members[k].name, Directory, [], "0755")
  }

  lemma MemberNamed(stage: Stage, names: seq<string>, k: nat)
    requires k < |names|
    ensures MembersAt(stage, names)[k].name == names[k]
    ensures MembersAt(stage, names)[k] == if names[k] in stage then Member(names[k], RegularFile, stage[names[k]].data, stage[names[k]].mode)
                                          else Member(names[k], Directory, [], "0755")
  {
  }

  lemma DirectoryExactly(stage: Stage, name: string)
    ensures name in AllDirs(stage.Keys) <==> IsDirectory(stage, name)
  {
    if name in AllDirs(stage.Keys) {
      var p :| p in stage.Keys && name in DirsOf(p);
      assert name + "/" <= p;
    }
    if p :| name != "" && p in stage && name + "/" <= p {
      assert p[|name|] == (name + "/")[|name|] && p[..|name|] == name;
      assert name in DirsOf(p);
    }
  }

  lemma ArchiveExactly(stage: Stage)
    ensures ArchiveIs(stage, Archive(stage))
  {
    hide Less, AllDirs, IsDirectory, MembersAt, SortText, ArchiveIs;
    var names := SortText(stage.Keys + AllDirs(stage.Keys));
    forall name ensures name in names <==> name in stage || IsDirectory(stage, name) {
      DirectoryExactly(stage, name);
      assert name in Elements(names) <==> name in names;
    }
    ArchiveOf(stage, names);
  }

  lemma ArchiveOf(stage: Stage, names: seq<string>)
    requires Ascending(names, Less) && forall name :: name in names <==> name in stage || IsDirectory(stage, name)
    ensures ArchiveIs(stage, MembersAt(stage, names))
  {
    hide Less, IsDirectory;
    var members := MembersAt(stage, names);
    assert |members| == |names|;
    forall k | 0 <= k < |names|
      ensures members[k].name == names[k]
      ensures members[k] == if names[k] in stage then Member(names[k], RegularFile, stage[names[k]].data, stage[names[k]].mode)
                            else Member(names[k], Directory, [], "0755") {
      MemberNamed(stage, names, k);
    }
    hide MembersAt;
    forall name ensures (exists k :: 0 <= k < |members| && members[k].name == name) <==> name in names {
      if name in names {
        var k :| 0 <= k < |names| && names[k] == name;
        assert members[k].name == name;
      }
    }
  }

  lemma RecordsExactly(pf: Platform, t: Tree, dir: map<string, Bytes>, l: Lineage)
    requires Buildable(pf, t, dir, l)
    ensures RuntimeRecorded(pf, t, l, RuntimeRecords(pf, t, l.paths)) && EvidenceRecorded(pf, dir, EvidenceRecords(pf, dir, EVIDENCE_NAMES))
  {
    ArchiveContract.EvidenceIsThere();
    assert EVIDENCE_NAMES == LINEAGE;
    hide EVIDENCE_ROOT, EVIDENCE_NAMES, LINEAGE, Coexist, KeepsClear, Get;
    forall k | 0 <= k < |l.paths| ensures l.paths[k] in t.files { assert l.paths[k] in l.paths; }
    forall k | 0 <= k < |LINEAGE| ensures LINEAGE[k] in dir { assert LINEAGE[k] in LINEAGE; }
  }

  lemma ItemsExactly(records: seq<Record>)
    ensures ItemsAre(records, RecordsJson(records))
  {
  }

  lemma PayloadExactly(pf: Platform, records: seq<Record>)
    ensures PayloadIs(pf, records, Str(PayloadHash(pf, SortBy(records, (r: Record) => r.path))))
  {
    var key := (r: Record) => r.path;
    var listing := SortBy(records, key);
    SortByKeeps(records, key);
    SortByOrders(records, key);
    SortByFixes(listing, key);
    ItemsExactly(listing);
    hide Less, SortBy, ItemsAre, RecordsJson;
    assert PayloadHash(pf, listing) == "sha256:" + pf.hex(pf.canon(Arr(RecordsJson(listing))));
  }

  lemma ManifestExactly(pf: Platform, t: Tree, dir: map<string, Bytes>, commit: string, l: Lineage)
    requires Buildable(pf, t, dir, l)
    ensures ManifestSays(pf, t, dir, commit, l,
              Manifest(pf, ManifestMaterial(pf, commit, l, RuntimeRecords(pf, t, l.paths), EvidenceRecords(pf, dir, EVIDENCE_NAMES))))
  {
    var runtime, evidence := RuntimeRecords(pf, t, l.paths), EvidenceRecords(pf, dir, EVIDENCE_NAMES);
    RecordsExactly(pf, t, dir, l);
    assert |runtime| == |l.paths| && |evidence| == 7;
    hide RuntimeRecords, EvidenceRecords, EVIDENCE_NAMES, Buildable;
    ItemsExactly(runtime);
    ItemsExactly(evidence);
    PayloadExactly(pf, runtime + evidence);
    ManifestIsSigned(pf, commit, l, runtime, evidence);
    MaterialExactly(pf, commit, l, runtime, evidence);
    hide RuntimeRecorded, EvidenceRecorded, ItemsAre, PayloadIs, RecordsJson, PayloadHash, ManifestMaterial, Manifest, Passed, Identity, Get, SortBy, Less;
    var m := Manifest(pf, ManifestMaterial(pf, commit, l, runtime, evidence));
    var hash := Str(PayloadHash(pf, SortBy(runtime + evidence, (r: Record) => r.path)));
    assert m - {"manifestHash"} == Passed(l) + Identity(commit, l) +
      map["payloadHash" := hash, "runtimeFiles" := Arr(RecordsJson(runtime)), "evidenceFiles" := Arr(RecordsJson(evidence))];
  }

  lemma MaterialExactly(pf: Platform, commit: string, l: Lineage, runtime: seq<Record>, evidence: seq<Record>)
    requires |runtime| == |l.paths| && |evidence| == 7
    ensures ManifestMaterial(pf, commit, l, runtime, evidence) ==
              Passed(l) + Identity(commit, l) +
                map["payloadHash" := Str(PayloadHash(pf, SortBy(runtime + evidence, (r: Record) => r.path))),
                    "runtimeFiles" := Arr(RecordsJson(runtime)), "evidenceFiles" := Arr(RecordsJson(evidence))]
  {
    hide Get, PayloadHash, RecordsJson, SortBy, Less, PassedFields, Passed, CheckedFields, Identity;
    PassedExactly(l);
    IdentityExactly(commit, l);
    ContentExactly(pf, runtime, evidence);
    hide ContentFields;
  }

  lemma PassedExactly(l: Lineage)
    ensures PassedFields(l) == Passed(l)
  {
    hide Get;
  }

  lemma IdentityExactly(commit: string, l: Lineage)
    ensures CheckedFields(commit, l, |l.paths|, 7) == Identity(commit, l)
  {
    hide Get;
  }

  lemma ContentExactly(pf: Platform, runtime: seq<Record>, evidence: seq<Record>)
    ensures ContentFields(pf, runtime, evidence) ==
              map["payloadHash" := Str(PayloadHash(pf, SortBy(runtime + evidence, (r: Record) => r.path))),
                  "runtimeFiles" := Arr(RecordsJson(runtime)), "evidenceFiles" := Arr(RecordsJson(evidence))]
  {
    hide PayloadHash, RecordsJson, SortBy;
  }

  ghost predicate HoldsCopies(pf: Platform, t: Tree, dir: map<string, Bytes>, commit: string, l: Lineage, p: Package) {
    Holds(pf, dir, commit, l, RuntimeRecords(pf, t, l.paths), EvidenceRecords(pf, dir, EVIDENCE_NAMES), StagedOf(t, l.paths), p)
  }

  lemma StageExactly(pf: Platform, t: Tree, dir: map<string, Bytes>, commit: string, l: Lineage, p: Package)
    requires Buildable(pf, t, dir, l) && HoldsCopies(pf, t, dir, commit, l, p)
    ensures StageIs(pf, t, dir, l, p.manifest, p.stage)
  {
    hide HoldsCopies, Buildable, InPackage, Added, LINEAGE;
    FilesHeld(pf, t, dir, commit, l, p);
    EvidenceHeld(pf, t, dir, commit, l, p);
    RuntimeHeld(pf, t, dir, commit, l, p);
  }

  lemma FilesHeld(pf: Platform, t: Tree, dir: map<string, Bytes>, commit: string, l: Lineage, p: Package)
    requires HoldsCopies(pf, t, dir, commit, l, p)
    ensures forall q :: q in p.stage <==> InPackage(l, q)
  {
    forall q ensures q in Reserved() <==> Added(q) { ReservedExactly(q); }
    hide Reserved, Added, EVIDENCE_NAMES, MANIFEST_PATH, EVIDENCE_ROOT, Manifest, ManifestMaterial, Archive, RuntimeRecords, EvidenceRecords;
    forall q ensures q in p.stage <==> InPackage(l, q) { assert q in StagedOf(t, l.paths).Keys <==> q in l.paths; }
  }

  lemma EvidenceHeld(pf: Platform, t: Tree, dir: map<string, Bytes>, commit: string, l: Lineage, p: Package)
    requires HoldsCopies(pf, t, dir, commit, l, p)
    ensures ArchiveContract.MANIFEST_MEMBER in p.stage
    ensures p.stage[ArchiveContract.MANIFEST_MEMBER] == Staged(pf.render(Obj(p.manifest)), "0644")
    ensures forall name | name in LINEAGE ::
              && name in dir && "release/competition-lineage/" + name in p.stage
              && p.stage["release/competition-lineage/" + name] == Staged(dir[name], "0644")
  {
    ArchiveContract.ManifestIsThere();
    ArchiveContract.EvidenceIsThere();
    assert EVIDENCE_NAMES == LINEAGE;
    hide EVIDENCE_NAMES, LINEAGE, MANIFEST_PATH, EVIDENCE_ROOT, Manifest, ManifestMaterial, Archive, RuntimeRecords, EvidenceRecords, StagedOf;
  }

  lemma RuntimeHeld(pf: Platform, t: Tree, dir: map<string, Bytes>, commit: string, l: Lineage, p: Package)
    requires Buildable(pf, t, dir, l) && HoldsCopies(pf, t, dir, commit, l, p)
    ensures forall q | q in l.paths && !Added(q) ::
              q in t.files && q in p.stage && p.stage[q] == Staged(t.files[q].data, if t.files[q].executable then "0755" else "0644")
  {
    forall q ensures q in Reserved() <==> Added(q) { ReservedExactly(q); }
    hide Reserved, Added, EVIDENCE_NAMES, MANIFEST_PATH, EVIDENCE_ROOT, Manifest, ManifestMaterial, Archive, RuntimeRecords, EvidenceRecords, KeepsClear,
         Coexist, Sha, RuntimeItems, HashOf, Get;
    forall q | q in l.paths && !Added(q)
      ensures q in t.files && q in p.stage && p.stage[q] == Staged(t.files[q].data, if t.files[q].executable then "0755" else "0644") {
      assert q in StagedOf(t, l.paths) && StagedOf(t, l.paths)[q] == FileAt(t, q);
    }
  }

  /** What the builder returns: this manifest, these files, and the archive of them. */
  lemma BuiltExactly(pf: Platform, t: Tree, dir: map<string, Bytes>, commit: string)
    requires Build(pf, t, dir, commit).Ok?
    ensures var p := Build(pf, t, dir, commit).value;
            ArchiveIs(p.stage, p.members) &&
            exists l :: MayPack(pf, dir, commit, l) && ManifestSays(pf, t, dir, commit, l, p.manifest) && StageIs(pf, t, dir, l, p.manifest, p.stage)
  {
    hide ReadLineage, MayPack, BuildFrom, Buildable, ManifestSays, StageIs, ArchiveIs, RuntimeRecords, EvidenceRecords, StagedOf, Archive, EVIDENCE_NAMES,
         LINEAGE, Manifest, ManifestMaterial;
    var l := ReadLineage(pf, dir, commit).value;
    var p := Build(pf, t, dir, commit).value;
    LineageExactly(pf, dir, commit, l);
    BuildExactly(pf, t, dir, commit, l);
    ManifestExactly(pf, t, dir, commit, l);
    StageExactly(pf, t, dir, commit, l, p);
    ArchiveExactly(p.stage);
  }
}
