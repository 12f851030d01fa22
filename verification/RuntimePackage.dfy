/** scripts/build_competition_runtime_package.py and scripts/verify_competition_runtime_package.py:
    the builder that packs a compiled lineage, and the independent verifier of the archive. */
module RuntimePackage {
  import opened Sorting
  import opened TextOrder
  import opened Json
  import opened Platform
  import opened Wrappers
  import opened PosixPath
  import opened LineageText
  import opened LineageCompiler

  const MANIFEST_PATH := "release" + "/" + "competition-runtime-manifest.json"
  const EVIDENCE_ROOT := "release" + "/" + "competition-lineage" + "/"
  const ENTRYPOINT := "src.api.main:app"
  const PACKAGE_SCHEMA := "competition.runtime_package.v1"

  const EVIDENCE_NAMES: seq<string> := [
    "source-identity.json", "registry-snapshot.json", "lineage-graph.json", "runtime-files.txt",
    "runtime-files.sha256", "verification-report.json", "evidence-manifest.json"]

  datatype Staged = Staged(data: Bytes, mode: string)

  /** The files below a staging directory; their parent directories exist with them. */
  type Stage = map<string, Staged>

  datatype Record = Record(path: string, sha256: string, size: int, mode: string)

  datatype MemberKind = RegularFile | Directory | UnsafeKind | OtherKind

  datatype Member = Member(name: string, kind: MemberKind, data: Bytes, mode: string)

  // ------------------------------------------------------------------ staging

  /** Writing a file fails where a file stands in the place of a parent, or a directory in its own. */
  predicate Blocked(stage: Stage, path: string) {
    exists q | q in stage :: Above(q, path) || Above(path, q)
  }

  function RecordOf(pf: Platform, path: string, data: Bytes, mode: string): Record {
    Record(path, Sha(pf, data), |data|, mode)
  }

  /** Files staged so far, and the records of the loop at work. */
  datatype Copied = Copied(stage: Stage, records: seq<Record>)

  function Put(pf: Platform, so: Copied, path: string, data: Bytes, mode: string): Result<Copied> {
    if Blocked(so.stage, path) then Err
    else Ok(Copied(so.stage[path := Staged(data, mode)], so.records + [RecordOf(pf, path, data, mode)]))
  }

  function ModeOf(e: FileEntry): string {
    if e.executable then "0755" else "0644"
  }

  function CopyOne(pf: Platform, t: Tree, hashes: map<string, string>, so: Copied, path: string): Result<Copied> {
    if path !in t.files || path !in hashes || Sha(pf, t.files[path].data) != "sha256:" + hashes[path] then Err
    else Put(pf, so, path, t.files[path].data, ModeOf(t.files[path]))
  }

  function CopyRuntime(pf: Platform, t: Tree, hashes: map<string, string>, paths: seq<string>): Result<Copied> {
    if paths == [] then Ok(Copied(map[], [])) else
      var so := CopyRuntime(pf, t, hashes, paths[..|paths| - 1]);
      if so.Err? then Err else CopyOne(pf, t, hashes, so.value, paths[|paths| - 1])
  }

  function CopyEvidence(pf: Platform, dir: map<string, Bytes>, stage: Stage, names: seq<string>): Result<Copied> {
    if names == [] then Ok(Copied(stage, [])) else
      var so := CopyEvidence(pf, dir, stage, names[..|names| - 1]);
      var name := names[|names| - 1];
      if so.Err? || name !in dir then Err else Put(pf, so.value, EVIDENCE_ROOT + name, dir[name], "0644")
  }

  lemma {:induction false} CopyRuntimeFails(pf: Platform, t: Tree, hashes: map<string, string>, paths: seq<string>, k: nat)
    requires k <= |paths| && CopyRuntime(pf, t, hashes, paths[..k]).Err?
    ensures CopyRuntime(pf, t, hashes, paths).Err?
    decreases |paths|
  {
    if k < |paths| {
      assert paths[..|paths| - 1][..k] == paths[..k];
      CopyRuntimeFails(pf, t, hashes, paths[..|paths| - 1], k);
    } else {
      assert paths[..k] == paths;
    }
  }

  lemma {:induction false} CopyEvidenceFails(pf: Platform, dir: map<string, Bytes>, stage: Stage, names: seq<string>, k: nat)
    requires k <= |names| && CopyEvidence(pf, dir, stage, names[..k]).Err?
    ensures CopyEvidence(pf, dir, stage, names).Err?
    decreases |names|
  {
    if k < |names| {
      assert names[..|names| - 1][..k] == names[..k];
      CopyEvidenceFails(pf, dir, stage, names[..|names| - 1], k);
    } else {
      assert names[..k] == names;
    }
  }

  /** `copy_runtime_files`. */
  method CopyRuntimeFiles(pf: Platform, t: Tree, hashes: map<string, string>, paths: seq<string>) returns (r: Result<Copied>)
    ensures r == CopyRuntime(pf, t, hashes, paths)
  {
    hide Blocked, Sha;
    var so := Copied(map[], []);
    for k := 0 to |paths|
      invariant CopyRuntime(pf, t, hashes, paths[..k]) == Ok(so)
    {
      assert paths[..k + 1][..k] == paths[..k];
      var next := CopyOne(pf, t, hashes, so, paths[k]);
      if next.Err? {
        CopyRuntimeFails(pf, t, hashes, paths, k + 1);
        return Err;
      }
      so := next.value;
    }
    assert paths[..|paths|] == paths;
    r := Ok(so);
  }

  /** `copy_lineage_evidence`. */
  method CopyLineageEvidence(pf: Platform, dir: map<string, Bytes>, stage: Stage, names: seq<string>) returns (r: Result<Copied>)
    ensures r == CopyEvidence(pf, dir, stage, names)
  {
    hide Put;
    var so := Copied(stage, []);
    for k := 0 to |names|
      invariant CopyEvidence(pf, dir, stage, names[..k]) == Ok(so)
    {
      assert names[..k + 1][..k] == names[..k];
      var next := if names[k] in dir then Put(pf, so, EVIDENCE_ROOT + names[k], dir[names[k]], "0644") else Err;
      if next.Err? {
        CopyEvidenceFails(pf, dir, stage, names, k + 1);
        return Err;
      }
      so := next.value;
    }
    assert names[..|names|] == names;
    r := Ok(so);
  }

  // ------------------------------------------------------------------ build_package

  function ReadObject(pf: Platform, dir: map<string, Bytes>, name: string): Result<Dict> {
    if name !in dir then Err else ParseObject(pf, dir[name])
  }

  function ParseObject(pf: Platform, data: Bytes): Result<Dict> {
    match pf.parse(data)
    case Some(Obj(fields)) => Ok(fields)
    case _ => Err
  }

  function RecordJson(r: Record): Json {
    Obj(map["path" := Str(r.path), "sha256" := Str(r.sha256), "size" := Num(r.size), "mode" := Str(r.mode)])
  }

  function RecordsJson(records: seq<Record>): seq<Json> {
    seq(|records|, k requires 0 <= k < |records| => RecordJson(records[k]))
  }

  function PayloadHash(pf: Platform, records: seq<Record>): string {
    HashOf(pf, Arr(RecordsJson(SortBy(records, (r: Record) => r.path))))
  }

  function RuntimeItem(r: Record): Json {
    Obj(map["path" := Str(r.path), "sha256" := Str(r.sha256), "size" := Num(r.size)])
  }

  function RuntimeItems(records: seq<Record>): Json {
    Arr(seq(|records|, k requires 0 <= k < |records| => RuntimeItem(records[k])))
  }

  /** What the builder reads from the lineage directory. */
  datatype Lineage = Lineage(report: Dict, evidence: Dict, snapshot: Dict, identity: Dict,
                             paths: seq<string>, hashes: map<string, string>)

  /** The lineage directory, when it may be packed for this commit. */
  function ReadLineage(pf: Platform, dir: map<string, Bytes>, commit: string): Result<Lineage> {
    var report := ReadObject(pf, dir, "verification-report.json");
    var evidence := ReadObject(pf, dir, "evidence-manifest.json");
    var snapshot := ReadObject(pf, dir, "registry-snapshot.json");
    var identity := ReadObject(pf, dir, "source-identity.json");
    if report.Err? || evidence.Err? || snapshot.Err? || identity.Err? then Err
    else if Get(report.value, "verified") != Bool(true) || pf.str(Get(report.value, "sourceCommit")) != commit then Err
    else if Get(evidence.value, "verified") != Bool(true) || pf.str(Get(evidence.value, "sourceCommit")) != commit then Err
    else if "runtime-files.txt" !in dir || "runtime-files.sha256" !in dir then Err
    else
      var paths := RuntimeList(pf.readText(dir["runtime-files.txt"]));
      var hashes := ReadShaLines(SplitLines(pf.readText(dir["runtime-files.sha256"])));
      if paths.Err? || hashes.Err? || Elements(paths.value) != hashes.value.Keys then Err
      else Ok(Lineage(report.value, evidence.value, snapshot.value, identity.value, paths.value, hashes.value))
  }

  /** The manifest fields that no later check reads. */
  function PassedFields(l: Lineage): Dict {
    map["packageType" := Str("competition-public-runtime"), "sourceRepository" := Get(l.identity, "publicRepository"),
        "motherRepository" := Get(l.identity, "motherRepository"), "motherCommit" := Get(l.identity, "motherCommit"),
        "registryVersion" := Get(l.snapshot, "registryVersion"), "registryRootHash" := Get(l.report, "registryRootHash"),
        "registrySnapshotHash" := Get(l.evidence, "registrySnapshotHash"),
        "lineageVerificationHash" := Get(l.report, "verificationHash"), "deploymentContract" := DEPLOYMENT_CONTRACT]
  }

  const DEPLOYMENT_CONTRACT := Obj(map[
    "immutableDirectory" := Bool(true), "currentSymlinkSwitchRequired" := Bool(true), "environmentVariablesExternal" := Bool(true),
    "databaseExternal" := Bool(true), "uploadedReportsExternal" := Bool(true), "switchAfterCandidateSmokeOnly" := Bool(true)])

  function CheckedFields(commit: string, l: Lineage, runtime: nat, evidence: nat): Dict {
    map["schema" := Str(PACKAGE_SCHEMA), "sourceCommit" := Str(commit), "entrypoint" := Get(l.evidence, "entrypoint"),
        "lineageGraphHash" := Get(l.report, "graphHash"), "runtimeHash" := Get(l.report, "runtimeHash"),
        "runtimeFileCount" := Num(runtime), "evidenceFileCount" := Num(evidence), "payloadFileCount" := Num(runtime + evidence)]
  }

  function ContentFields(pf: Platform, runtime: seq<Record>, evidence: seq<Record>): Dict {
    map["payloadHash" := Str(PayloadHash(pf, SortBy(runtime + evidence, (r: Record) => r.path))),
        "runtimeFiles" := Arr(RecordsJson(runtime)), "evidenceFiles" := Arr(RecordsJson(evidence))]
  }

  function ManifestMaterial(pf: Platform, commit: string, l: Lineage, runtime: seq<Record>, evidence: seq<Record>): Dict {
    PassedFields(l) + CheckedFields(commit, l, |runtime|, |evidence|) + ContentFields(pf, runtime, evidence)
  }

  function Manifest(pf: Platform, material: Dict): Dict {
    material + map["manifestHash" := Str(HashOf(pf, Obj(material)))]
  }

  function AllDirs(paths: set<string>): set<string> {
    set p, d | p in paths && d in DirsOf(p) :: d
  }

  function MemberAt(stage: Stage, name: string): Member {
    if name in stage then Member(name, RegularFile, stage[name].data, stage[name].mode) else Member(name, Directory, [], "0755")
  }

  function MembersAt(stage: Stage, names: seq<string>): seq<Member> {
    seq(|names|, k requires 0 <= k < |names| => MemberAt(stage, names[k]))
  }

  /** `deterministic_archive`: every file and directory below the staging directory, in path order. */
  function Archive(stage: Stage): seq<Member> {
    MembersAt(stage, SortText(stage.Keys + AllDirs(stage.Keys)))
  }

  datatype Package = Package(manifest: Dict, stage: Stage, members: seq<Member>)

  function Packed(pf: Platform, commit: string, l: Lineage, stage: Stage, runtime: seq<Record>, evidence: seq<Record>): Result<Package> {
    if Str(HashOf(pf, RuntimeItems(runtime))) != Get(l.report, "runtimeHash") || Blocked(stage, MANIFEST_PATH) then Err
    else
      var manifest := Manifest(pf, ManifestMaterial(pf, commit, l, runtime, evidence));
      var full := stage[MANIFEST_PATH := Staged(pf.render(Obj(manifest)), "0644")];
      Ok(Package(manifest, full, Archive(full)))
  }

  /** Copying and packing a lineage that was read. */
  function BuildFrom(pf: Platform, t: Tree, dir: map<string, Bytes>, commit: string, l: Lineage): Result<Package> {
    var runtime := CopyRuntime(pf, t, l.hashes, l.paths);
    if runtime.Err? then Err else
      var evidence := CopyEvidence(pf, dir, runtime.value.stage, EVIDENCE_NAMES);
      if evidence.Err? then Err
      else Packed(pf, commit, l, evidence.value.stage, runtime.value.records, evidence.value.records)
  }

  function Build(pf: Platform, t: Tree, dir: map<string, Bytes>, commit: string): Result<Package> {
    var l := ReadLineage(pf, dir, commit);
    if l.Err? then Err else BuildFrom(pf, t, dir, commit, l.value)
  }

  method BuildPackage(pf: Platform, t: Tree, dir: map<string, Bytes>, commit: string) returns (r: Result<Package>)
    ensures r == Build(pf, t, dir, commit)
  {
    hide ReadObject, RuntimeList, ReadShaLines, SplitLines, Packed, CopyRuntime, CopyEvidence;
    var report := ReadObject(pf, dir, "verification-report.json");
    var evidence := ReadObject(pf, dir, "evidence-manifest.json");
    var snapshot := ReadObject(pf, dir, "registry-snapshot.json");
    var identity := ReadObject(pf, dir, "source-identity.json");
    if report.Err? || evidence.Err? || snapshot.Err? || identity.Err? { return Err; }
    if Get(report.value, "verified") != Bool(true) || pf.str(Get(report.value, "sourceCommit")) != commit { return Err; }
    if Get(evidence.value, "verified") != Bool(true) || pf.str(Get(evidence.value, "sourceCommit")) != commit { return Err; }
    if "runtime-files.txt" !in dir || "runtime-files.sha256" !in dir { return Err; }
    var paths := ReadRuntimePaths(pf.readText(dir["runtime-files.txt"]));
    if paths.Err? { return Err; }
    var hashes := ParseShaFile(pf.readText(dir["runtime-files.sha256"]));
    if hashes.Err? || Elements(paths.value) != hashes.value.Keys { return Err; }
    var l := Lineage(report.value, evidence.value, snapshot.value, identity.value, paths.value, hashes.value);
    var copied := CopyRuntimeFiles(pf, t, l.hashes, l.paths);
    if copied.Err? { return Err; }
    var proofs := CopyLineageEvidence(pf, dir, copied.value.stage, EVIDENCE_NAMES);
    if proofs.Err? { return Err; }
    r := Packed(pf, commit, l, proofs.value.stage, copied.value.records, proofs.value.records);
  }

  // ------------------------------------------------------------------ verify_archive

  function ReadMember(files: Stage, m: Member): Result<Stage> {
    var name := SafeMemberName(m.name);
    if name.Err? || m.kind.UnsafeKind? then Err
    else if m.kind.Directory? then Ok(files)
    else if m.kind.OtherKind? || name.value in files then Err
    else Ok(files[name.value := Staged(m.data, m.mode)])
  }

  /** The regular files of an archive. */
  function ReadMembers(members: seq<Member>): Result<Stage> {
    if members == [] then Ok(map[]) else
      var files := ReadMembers(members[..|members| - 1]);
      if files.Err? then Err else ReadMember(files.value, members[|members| - 1])
  }

  lemma {:induction false} ReadMembersFails(members: seq<Member>, k: nat)
    requires k <= |members| && ReadMembers(members[..k]).Err?
    ensures ReadMembers(members).Err?
    decreases |members|
  {
    if k < |members| {
      assert members[..|members| - 1][..k] == members[..k];
      ReadMembersFails(members[..|members| - 1], k);
    } else {
      assert members[..k] == members;
    }
  }

  method ReadArchive(members: seq<Member>) returns (r: Result<Stage>)
    ensures r == ReadMembers(members)
  {
    hide ReadMember;
    var files: Stage := map[];
    for k := 0 to |members|
      invariant ReadMembers(members[..k]) == Ok(files)
    {
      assert members[..k + 1][..k] == members[..k];
      var next := ReadMember(files, members[k]);
      if next.Err? {
        ReadMembersFails(members, k + 1);
        return Err;
      }
      files := next.value;
    }
    assert members[..|members|] == members;
    r := Ok(files);
  }

  /** `int(value)`. */
  function IntOf(pf: Platform, j: Json): Option<int> {
    match j
    case Num(n) => Some(n)
    case Bool(b) => Some(if b then 1 else 0)
    case Str(s) => pf.intOfText(s)
    case _ => None
  }

  /** `record_material`: every field must be there, and the size must read as a number. */
  function ReadRecord(pf: Platform, raw: Json): Result<Record> {
    if !raw.Obj? || !({"path", "sha256", "size", "mode"} <= raw.fields.Keys) then Err
    else
      var d := raw.fields;
      var size := IntOf(pf, d["size"]);
      if size.None? then Err else Ok(Record(pf.str(d["path"]), pf.str(d["sha256"]), size.value, pf.str(d["mode"])))
  }

  /** Names declared so far, the manifest's own among them, and the records read. */
  datatype Checked = Checked(names: set<string>, records: seq<Record>)

  predicate Matches(pf: Platform, files: Stage, name: string, r: Record) {
    name in files && Sha(pf, files[name].data) == r.sha256 && |files[name].data| == r.size && files[name].mode == r.mode
  }

  function CheckRecord(pf: Platform, files: Stage, so: Checked, raw: Json): Result<Checked> {
    var record := ReadRecord(pf, raw);
    if record.Err? then Err else
      var name := SafeMemberName(record.value.path);
      if name.Err? || name.value in so.names || !Matches(pf, files, name.value, record.value) then Err
      else Ok(Checked(so.names + {name.value}, so.records + [record.value]))
  }

  function CheckRecords(pf: Platform, files: Stage, raws: seq<Json>): Result<Checked> {
    if raws == [] then Ok(Checked({MANIFEST_PATH}, [])) else
      var so := CheckRecords(pf, files, raws[..|raws| - 1]);
      if so.Err? then Err else CheckRecord(pf, files, so.value, raws[|raws| - 1])
  }

  lemma {:induction false} CheckRecordsFails(pf: Platform, files: Stage, raws: seq<Json>, k: nat)
    requires k <= |raws| && CheckRecords(pf, files, raws[..k]).Err?
    ensures CheckRecords(pf, files, raws).Err?
    decreases |raws|
  {
    if k < |raws| {
      assert raws[..|raws| - 1][..k] == raws[..k];
      CheckRecordsFails(pf, files, raws[..|raws| - 1], k);
    } else {
      assert raws[..k] == raws;
    }
  }

  method CheckDeclared(pf: Platform, files: Stage, raws: seq<Json>) returns (r: Result<Checked>)
    ensures r == CheckRecords(pf, files, raws)
  {
    hide CheckRecord;
    var so := Checked({MANIFEST_PATH}, []);
    for k := 0 to |raws|
      invariant CheckRecords(pf, files, raws[..k]) == Ok(so)
    {
      assert raws[..k + 1][..k] == raws[..k];
      var next := CheckRecord(pf, files, so, raws[k]);
      if next.Err? {
        CheckRecordsFails(pf, files, raws, k + 1);
        return Err;
      }
      so := next.value;
    }
    assert raws[..|raws|] == raws;
    r := Ok(so);
  }

  /** A JSON value that Python finds equal to the number n: `True == 1`. */
  predicate IsCount(j: Json, n: nat) {
    j == Num(n) || (j.Bool? && n == if j.b then 1 else 0)
  }

  function DeclaredHash(pf: Platform, manifest: Dict): string {
    if "manifestHash" in manifest then pf.str(manifest["manifestHash"]) else ""
  }

  predicate HeaderAccepted(pf: Platform, manifest: Dict, expected: string) {
    && Get(manifest, "schema") == Str(PACKAGE_SCHEMA)
    && (expected != "" ==> Get(manifest, "sourceCommit") == Str(expected))
    && DeclaredHash(pf, manifest) == HashOf(pf, Obj(manifest - {"manifestHash"}))
    && Get(manifest, "runtimeFiles").Arr? && Get(manifest, "evidenceFiles").Arr?
  }

  function DeclaredRecords(manifest: Dict): seq<Json> {
    ItemsOrEmpty(Get(manifest, "runtimeFiles")) + ItemsOrEmpty(Get(manifest, "evidenceFiles"))
  }

  predicate TotalsAccepted(pf: Platform, manifest: Dict, records: seq<Record>) {
    && Get(manifest, "payloadHash") == Str(PayloadHash(pf, records))
    && IsCount(Get(manifest, "runtimeFileCount"), |ItemsOrEmpty(Get(manifest, "runtimeFiles"))|)
    && IsCount(Get(manifest, "evidenceFileCount"), |ItemsOrEmpty(Get(manifest, "evidenceFiles"))|)
    && IsCount(Get(manifest, "payloadFileCount"), |DeclaredRecords(manifest)|)
    && Get(manifest, "entrypoint") == Str(ENTRYPOINT)
  }

  predicate LineageAccepted(pf: Platform, files: Stage, manifest: Dict) {
    var report, evidence := EVIDENCE_ROOT + "verification-report.json", EVIDENCE_ROOT + "evidence-manifest.json";
    && report in files && evidence in files
    && ParseObject(pf, files[report].data).Ok? && ParseObject(pf, files[evidence].data).Ok?
    && var r := ParseObject(pf, files[report].data).value;
    && Get(r, "verified") == Bool(true) && Get(ParseObject(pf, files[evidence].data).value, "verified") == Bool(true)
    && Get(r, "sourceCommit") == Get(manifest, "sourceCommit")
    && Get(r, "runtimeHash") == Get(manifest, "runtimeHash")
    && Get(r, "graphHash") == Get(manifest, "lineageGraphHash")
  }

  datatype Verdict = Verdict(files: Stage, manifest: Dict)

  /** What an accepted archive holds. */
  function Verified(pf: Platform, members: seq<Member>, expected: string): Result<Verdict> {
    var files := ReadMembers(members);
    if files.Err? || MANIFEST_PATH !in files.value then Err else
      var manifest := ParseObject(pf, files.value[MANIFEST_PATH].data);
      if manifest.Err? || !HeaderAccepted(pf, manifest.value, expected) then Err else
        var checked := CheckRecords(pf, files.value, DeclaredRecords(manifest.value));
        if checked.Err? || files.value.Keys != checked.value.names || !TotalsAccepted(pf, manifest.value, checked.value.records)
           || !LineageAccepted(pf, files.value, manifest.value) then Err
        else Ok(Verdict(files.value, manifest.value))
  }

  method VerifyArchive(pf: Platform, members: seq<Member>, expected: string) returns (r: Result<Verdict>)
    ensures r == Verified(pf, members, expected)
  {
    hide ReadMembers, CheckRecords, HeaderAccepted, TotalsAccepted, LineageAccepted, ParseObject, DeclaredRecords;
    var files := ReadArchive(members);
    if files.Err? || MANIFEST_PATH !in files.value { return Err; }
    var manifest := ParseObject(pf, files.value[MANIFEST_PATH].data);
    if manifest.Err? || !HeaderAccepted(pf, manifest.value, expected) { return Err; }
    var checked := CheckDeclared(pf, files.value, DeclaredRecords(manifest.value));
    if checked.Err? || files.value.Keys != checked.value.names { return Err; }
    if !TotalsAccepted(pf, manifest.value, checked.value.records) || !LineageAccepted(pf, files.value, manifest.value) { return Err; }
    r := Ok(Verdict(files.value, manifest.value));
  }
}
