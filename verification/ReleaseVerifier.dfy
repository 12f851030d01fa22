/** scripts/release_verifier.py: the root verifier of sealed release bundles. Every check may append to
    one shared list of errors; a bundle is verified when the list stays empty. */
module ReleaseVerifier {
  import opened Sorting
  import opened TextOrder
  import opened Json
  import opened Platform
  import opened Wrappers
  import opened PosixPath

  type Files = map<string, Bytes>

  const SCHEMA := "release.manifest.v1"
  const MODE := "single_release_sealed_runtime"
  const PRODUCT_VERSION := "22.4.0"
  const PYTHON_VERSION := "3.11.9"
  const MANIFEST_PATH := "release/release-manifest.json"
  const POLICY_PATH := "release/release-policy.json"
  const EVIDENCE_ROOT := "release/attestation/"
  const LOCK_PATH := "requirements.lock"

  const MANIFEST_KEYS := {
    "schema", "productVersion", "runtimeMode", "sourceCommit", "runtimeFiles", "attestedFiles", "testEvidenceFiles", "forbiddenPaths",
    "allowedEntrypoints", "dependencyLock", "buildEnvironment", "testRunHash", "verificationContract", "manifestHash", "releaseHash"}
  const POLICY_KEYS := {
    "schema", "productVersion", "runtimeMode", "releasePythonVersion", "runtimeGlobs", "attestedGlobs", "excludeGlobs",
    "allowedEntrypoints", "forbiddenPaths", "rules"}
  const FILE_ENTRY_KEYS := {"path", "sha256", "size"}
  const DEPENDENCY_LOCK_KEYS := {"path", "sha256", "format"}
  const BUILD_ENVIRONMENT_KEYS := {"pythonVersion", "pipFreezeHash"}

  const EXPECTED_ENTRYPOINTS := {
    "src.api.main:app", "src.services.agent_runtime_hard_interface_v230_service:run_agent_pipeline_tick_hard"}
  const EXPECTED_RUNTIME_GLOBS := {
    "src/**/*", "web_demo/**/*", "config/**/*", "scripts/start_server.sh", "scripts/runtime_service_resolver.sh",
    "scripts/runtime_exclusivity_guard.sh", "scripts/sqlite_backup_rotate.py", "scripts/sqlite_data_identity.py",
    "scripts/release_verifier.py", "scripts/install_release_verifier.sh", "scripts/deploy_release.sh",
    "scripts/check_dependency_lock.py", "requirements.txt", "requirements.lock", "release/release-policy.json",
    "release/release-manifest.schema.json", "runtime/java/**/*", "scripts/start_v24_authority.sh"}
  const EXPECTED_ATTESTED_GLOBS := {
    "tests/**/*", "pytest.ini", "requirements-dev.lock", "scripts/check_release_contract.py", "scripts/check_python36_bootstrap.py",
    "scripts/generate_release_manifest.py", "scripts/deploy_github_artifact.sh", ".github/workflows/release-hash-seal.yml",
    ".github/workflows/historical-contract-audit.yml", "README.md", "VERSION.md", "docs/V22.4.0_RELEASE_HASH_SEAL.md",
    "docs/V22.4.0.7_GITHUB_ARTIFACT_TRANSPORT.md", "java-control-plane/src/main/java/**/*",
    "governance/v24/production-authority-bundle-v24.json", "governance/v24/authority-generation-policy-v24.json",
    "scripts/build_v24_production_bundle.sh", "scripts/verify_v24_authority_generation.sh", "scripts/verify_v24_production_bundle.sh",
    ".github/workflows/v24-production-authority-bundle.yml"}
  const EXPECTED_EXCLUDE_GLOBS := {"**/__pycache__/**", "**/*.pyc", ".venv/**", "logs/**", "data/**", "outputs/**"}
  const REQUIRED_FORBIDDEN_PATHS := {
    "scripts/deploy_v22.sh", "scripts/deploy_fast.sh", "scripts/deploy_atomic.sh", "scripts/check_v22_contract.py",
    "scripts/check_v16_manifest.py", "scripts/verify_release_manifest.py", ".github/workflows/v22-single-runtime.yml",
    "docs/V22.3.0.1_INTERFACE_CLOSURE.md", "MVP_V16_FILE_MANIFEST.md", "config/v16_mvp_file_manifest.json",
    "src/services/end_to_end_agent_flow_v226_hardening_service.py"}

  /** The policy rules that must be true, and those that must be false. */
  const TRUE_RULES := {
    "manifestRequiredInProduction", "runtimeAndWorkerReleaseMustMatch", "deploymentControllerMustComeFromReleaseBundle",
    "releaseBundleMustBeOutsideDeploymentRoot", "dependencyLockRequired", "attestedFilesMustShipInBundle",
    "testEvidenceFilesMustShipInBundle", "testRunHashMustBeRecomputed", "exactPythonPatchRequired",
    "python36BootstrapCompatibilityRequired", "rootVerifierExplicitOldHashRequiredForRotation",
    "validatedSqliteBackupRequiredBeforeSwitch", "sqliteDataIdentityRequiredAfterSwitch", "sqliteBackupContentHashRequired",
    "sqliteSchemaMustMatchDeploymentLineage", "sharedStateMigrationRequiredOnFirstSeal", "singleActiveRepositoryServiceRequired"}
  const FALSE_RULES := {
    "deployCurrentBranchDirectly", "extraRuntimeFileAllowed", "forbiddenPathAllowed", "runtimeDependencyDriftAllowed",
    "rootVerifierOrdinaryRotationAllowed", "strayRepositoryProcessAllowed", "legacyMutableWorkingTreeAllowedAfterSuccess"}
  const EXPECTED_POLICY_RULES: Dict := map rule | rule in TRUE_RULES + FALSE_RULES :: Bool(rule in TRUE_RULES)
  const EXPECTED_VERIFICATION_CONTRACT: Dict := map[
    "hashAlgorithm" := Str("sha256"), "canonicalJson" := Str("utf8_sorted_keys_compact"), "extraRuntimeFileAllowed" := Bool(false),
    "forbiddenPathAllowed" := Bool(false), "dependencyLockRequired" := Bool(true), "attestedFilesRequired" := Bool(true),
    "testEvidenceFilesRequired" := Bool(true)]

  const REQUIRED_EVIDENCE_PATHS: seq<string> := [
    "compile-syntax.log", "static-contract.log", "app-route-smoke.log", "pytest.log", "production-runtime-verification.json",
    "attested-files.sha256", "test-attestation.json", "pip-freeze.txt", "python-runtime.json"]
  const REQUIRED_TEST_ATTESTATION_FLAGS: seq<string> := [
    "staticCheckerImportedRuntime", "cleanProcessRouteSmokePassed", "dependencyLockVerified", "cleanProductionRuntimeVerified",
    "python36BootstrapChecked", "rootVerifierPinningChecked", "ordinaryVerifierRotationRejected", "compilePassed", "shellSyntaxPassed",
    "frontendSyntaxPassed", "staticContractPassed", "pytestPassed", "sqliteBackupLifecycleChecked", "legacyBranchDeployAbsent",
    "shadowServiceRetirementChecked", "strayRuntimeRetirementChecked", "forbiddenLegacyPathCleanupChecked",
    "legacyWorkingTreeRetirementChecked", "externalBundleControllerChecked", "attestedSourcesSealed", "testEvidenceSealed", "testLogsSealed"]

  // ------------------------------------------------------------------ values

  /** `==` between a JSON scalar and a constant: Python's `True == 1`. */
  predicate SameScalar(a: Json, b: Json) {
    a == b || (a.Num? && b == Bool(a.n == 1) && (a.n == 0 || a.n == 1)) || (b.Num? && a == Bool(b.n == 1) && (b.n == 0 || b.n == 1))
  }

  predicate SameDict(j: Json, expected: Dict) {
    j.Obj? && j.fields.Keys == expected.Keys && forall k | k in expected :: SameScalar(j.fields[k], expected[k])
  }

  predicate HasExactly(j: Json, keys: set<string>) {
    j.Obj? && j.fields.Keys == keys
  }

  predicate IsText(j: Json) {
    j.Str? && j.s != ""
  }

  /** The result of `string_list`: the usable strings of a list. */
  function TextsIn(items: seq<Json>): seq<string> {
    if items == [] then [] else
      TextsIn(items[..|items| - 1]) + if IsText(items[|items| - 1]) then [items[|items| - 1].s] else []
  }

  predicate AllText(items: seq<Json>) {
    forall item | item in items :: IsText(item)
  }

  lemma NoTexts()
    ensures AllText([]) && TextsIn([]) == []
  {
  }

  lemma TextStep(items: seq<Json>, k: nat)
    requires k < |items|
    ensures AllText(items[..k + 1]) <==> AllText(items[..k]) && IsText(items[k])
    ensures TextsIn(items[..k + 1]) == TextsIn(items[..k]) + if IsText(items[k]) then [items[k].s] else []
    ensures IsText(items[k]) ==> items[k].Str?
  {
    assert items[..k + 1][..k] == items[..k] && items[..k + 1] == items[..k] + [items[k]];
    assert items[k] in items[..k + 1];
  }

  predicate Distinct(texts: seq<string>) {
    |texts| == |Elements(texts)|
  }

  /** What `string_list` passes without complaint. */
  predicate IsTextList(j: Json) {
    j.Arr? && AllText(j.items) && TextsIn(j.items) != [] && Distinct(TextsIn(j.items))
  }

  function TextsOf(j: Json): seq<string> {
    if j.Arr? then TextsIn(j.items) else []
  }

  predicate IsSha(j: Json) {
    j.Str? && IsHex64(j.s)
  }

  predicate IsPrefixedSha(j: Json) {
    j.Str? && "sha256:" <= j.s && IsHex64(j.s[7..])
  }

  predicate IsCommit(j: Json) {
    j.Str? && |j.s| == 40 && forall c | c in j.s :: IsHexDigit(c)
  }

  /** The error list grew or stayed; it stayed exactly when the check was clean. */
  predicate Grew(before: nat, after: nat, clean: bool) {
    before <= after && (clean <==> after == before)
  }

  // ------------------------------------------------------------------ what each group of checks demands

  predicate ManifestHeaderOk(manifest: Dict) {
    && HasExactly(Obj(manifest), MANIFEST_KEYS)
    && Get(manifest, "schema") == Str(SCHEMA) && Get(manifest, "productVersion") == Str(PRODUCT_VERSION)
    && Get(manifest, "runtimeMode") == Str(MODE)
  }

  predicate PolicyHeaderOk(manifest: Dict, policy: Dict) {
    && HasExactly(Obj(policy), POLICY_KEYS)
    && Get(policy, "schema") == Str("release.policy.v1")
    && Get(policy, "productVersion") == Get(manifest, "productVersion") && Get(policy, "runtimeMode") == Get(manifest, "runtimeMode")
    && Get(policy, "releasePythonVersion") == Str(PYTHON_VERSION) && SameDict(Get(policy, "rules"), EXPECTED_POLICY_RULES)
  }

  predicate PolicyListsOk(policy: Dict) {
    && IsTextList(Get(policy, "runtimeGlobs")) && Elements(TextsOf(Get(policy, "runtimeGlobs"))) == EXPECTED_RUNTIME_GLOBS
    && IsTextList(Get(policy, "attestedGlobs")) && Elements(TextsOf(Get(policy, "attestedGlobs"))) == EXPECTED_ATTESTED_GLOBS
    && IsTextList(Get(policy, "excludeGlobs")) && Elements(TextsOf(Get(policy, "excludeGlobs"))) == EXPECTED_EXCLUDE_GLOBS
    && IsTextList(Get(policy, "allowedEntrypoints")) && Elements(TextsOf(Get(policy, "allowedEntrypoints"))) == EXPECTED_ENTRYPOINTS
    && IsTextList(Get(policy, "forbiddenPaths")) && Elements(TextsOf(Get(policy, "forbiddenPaths"))) == REQUIRED_FORBIDDEN_PATHS
  }

  predicate ManifestListsOk(manifest: Dict, policy: Dict) {
    && IsTextList(Get(manifest, "allowedEntrypoints")) && Elements(TextsOf(Get(manifest, "allowedEntrypoints"))) == EXPECTED_ENTRYPOINTS
    && TextsOf(Get(policy, "allowedEntrypoints")) == TextsOf(Get(manifest, "allowedEntrypoints"))
    && IsTextList(Get(manifest, "forbiddenPaths"))
    && TextsOf(Get(policy, "forbiddenPaths")) == TextsOf(Get(manifest, "forbiddenPaths"))
  }

  function Canonical(pf: Platform, manifest: Dict): Bytes {
    pf.canon(Obj(manifest - {"manifestHash", "releaseHash"}))
  }

  function RootHash(pf: Platform, canonical: Bytes): string {
    Sha(pf, pf.utf8(SCHEMA) + [0] + canonical)
  }

  predicate SealOk(pf: Platform, manifest: Dict) {
    && IsCommit(Get(manifest, "sourceCommit"))
    && Get(manifest, "manifestHash") == Str(Sha(pf, Canonical(pf, manifest)))
    && Get(manifest, "releaseHash") == Str(RootHash(pf, Canonical(pf, manifest)))
    && HasExactly(Get(manifest, "verificationContract"), EXPECTED_VERIFICATION_CONTRACT.Keys)
    && SameDict(Get(manifest, "verificationContract"), EXPECTED_VERIFICATION_CONTRACT)
  }

  function DictOf(j: Json): Dict {
    if j.Obj? then j.fields else map[]
  }

  predicate LockOk(pf: Platform, files: Files, lock: Json) {
    && HasExactly(lock, DEPENDENCY_LOCK_KEYS)
    && Get(DictOf(lock), "path") == Str(LOCK_PATH) && IsSha(Get(DictOf(lock), "sha256"))
    && LOCK_PATH in files && pf.hex(files[LOCK_PATH]) == Get(DictOf(lock), "sha256").s
    && Get(DictOf(lock), "format") == Str("pip-exact-pins-v1")
  }

  predicate EnvironmentOk(environment: Json) {
    && HasExactly(environment, BUILD_ENVIRONMENT_KEYS)
    && Get(DictOf(environment), "pythonVersion") == Str(PYTHON_VERSION) && IsPrefixedSha(Get(DictOf(environment), "pipFreezeHash"))
  }

  // ------------------------------------------------------------------ file entries

  function RawPath(entry: Json): string {
    if entry.Obj? && Get(entry.fields, "path").Str? then Get(entry.fields, "path").s else ""
  }

  /** An entry that names a file of the bundle with its size and hash. */
  predicate EntryMatches(pf: Platform, files: Files, entry: Json) {
    && entry.Obj?
    && SafeMemberName(RawPath(entry)).Ok? && SafeMemberName(RawPath(entry)).value in files
    && IsSha(Get(entry.fields, "sha256")) && Get(entry.fields, "size").Num? && Get(entry.fields, "size").n >= 0
    && var data := files[SafeMemberName(RawPath(entry)).value];
    |data| == Get(entry.fields, "size").n && pf.hex(data) == Get(entry.fields, "sha256").s
  }

  predicate EntryOk(pf: Platform, files: Files, entry: Json) {
    HasExactly(entry, FILE_ENTRY_KEYS) && EntryMatches(pf, files, entry)
  }

  function RawPaths(entries: seq<Json>): set<string> {
    set e | e in entries :: RawPath(e)
  }

  /** Every entry is in order, and names a path that no entry before it named. */
  predicate EntriesClean(pf: Platform, files: Files, entries: seq<Json>, before: set<string>) {
    if entries == [] then true else
      var n := |entries| - 1;
      && EntriesClean(pf, files, entries[..n], before)
      && EntryOk(pf, files, entries[n]) && RawPath(entries[n]) !in before + RawPaths(entries[..n])
  }

  predicate EntriesOk(pf: Platform, files: Files, j: Json, before: set<string>) {
    j.Arr? && j.items != [] && EntriesClean(pf, files, j.items, before)
  }

  function PathsIn(j: Json): set<string> {
    if j.Arr? then RawPaths(j.items) else {}
  }

  // ------------------------------------------------------------------ digests over entries

  function EntryKey(entry: Json): string {
    if entry.Obj? then TextOrEmpty(Get(entry.fields, "path")) else ""
  }

  predicate Digestible(entry: Json) {
    entry.Obj? && IsText(Get(entry.fields, "path")) && IsSha(Get(entry.fields, "sha256"))
  }

  /** What is fed to the test run digest. */
  function RunMaterial(pf: Platform, entries: seq<Json>): Option<Bytes> {
    if entries == [] then Some([]) else
      var front := RunMaterial(pf, entries[..|entries| - 1]);
      var entry := entries[|entries| - 1];
      if front.None? || !Digestible(entry) then None
      else Some(front.value + (pf.utf8(Get(entry.fields, "path").s) + [0] + pf.unhex(Get(entry.fields, "sha256").s)))
  }

  /** `expected_test_run_hash`. */
  function TestRunHash(pf: Platform, j: Json): Option<string> {
    if !j.Arr? || j.items == [] then None else
      var material := RunMaterial(pf, SortBy(j.items, EntryKey));
      if material.None? then None else Some(Sha(pf, material.value))
  }

  predicate TestRunOk(pf: Platform, entries: Json, declared: Json) {
    TestRunHash(pf, entries).Some? && declared == Str(TestRunHash(pf, entries).value)
  }

  lemma {:induction false} RunMaterialFails(pf: Platform, entries: seq<Json>, k: nat)
    requires k <= |entries| && RunMaterial(pf, entries[..k]).None?
    ensures RunMaterial(pf, entries).None?
    decreases |entries|
  {
    if k < |entries| {
      assert entries[..|entries| - 1][..k] == entries[..k];
      RunMaterialFails(pf, entries[..|entries| - 1], k);
    } else {
      assert entries[..k] == entries;
    }
  }

  method ExpectedTestRunHash(pf: Platform, j: Json) returns (r: Option<string>)
    ensures r == TestRunHash(pf, j)
  {
    hide Digestible, SortBy;
    if !j.Arr? || j.items == [] { return None; }
    var entries := SortBy(j.items, EntryKey);
    var digest: Bytes := [];
    for k := 0 to |entries|
      invariant RunMaterial(pf, entries[..k]) == Some(digest)
    {
      assert entries[..k + 1][..k] == entries[..k];
      var entry := entries[k];
      if !Digestible(entry) {
        RunMaterialFails(pf, entries, k + 1);
        return None;
      }
      assert entry.Obj? && Get(entry.fields, "path").Str? && Get(entry.fields, "sha256").Str? by { DigestibleFields(entry); }
      digest := digest + (pf.utf8(Get(entry.fields, "path").s) + [0] + pf.unhex(Get(entry.fields, "sha256").s));
    }
    assert entries[..|entries|] == entries;
    r := Some(Sha(pf, digest));
  }

  lemma DigestibleFields(entry: Json)
    requires Digestible(entry)
    ensures entry.Obj? && Get(entry.fields, "path").Str? && Get(entry.fields, "sha256").Str?
  {
  }

  /** The lines of `attested-files.sha256` for some entries. */
  function DigestText(entries: seq<Json>): Option<string> {
    if entries == [] then Some("") else
      var front := DigestText(entries[..|entries| - 1]);
      var entry := entries[|entries| - 1];
      if front.None? || !Digestible(entry) then None
      else Some(front.value + (Get(entry.fields, "sha256").s + "  " + Get(entry.fields, "path").s + "\n"))
  }

  /** `expected_attested_digest`. */
  function AttestedDigest(j: Json): Option<string> {
    if !j.Arr? || j.items == [] then None else DigestText(SortBy(j.items, EntryKey))
  }

  lemma {:induction false} DigestTextFails(entries: seq<Json>, k: nat)
    requires k <= |entries| && DigestText(entries[..k]).None?
    ensures DigestText(entries).None?
    decreases |entries|
  {
    if k < |entries| {
      assert entries[..|entries| - 1][..k] == entries[..k];
      DigestTextFails(entries[..|entries| - 1], k);
    } else {
      assert entries[..k] == entries;
    }
  }

  method ExpectedAttestedDigest(j: Json) returns (r: Option<string>)
    ensures r == AttestedDigest(j)
  {
    hide Digestible, SortBy;
    if !j.Arr? || j.items == [] { return None; }
    var entries := SortBy(j.items, EntryKey);
    var text := "";
    for k := 0 to |entries|
      invariant DigestText(entries[..k]) == Some(text)
    {
      assert entries[..k + 1][..k] == entries[..k];
      var entry := entries[k];
      if !Digestible(entry) {
        DigestTextFails(entries, k + 1);
        return None;
      }
      assert entry.Obj? && Get(entry.fields, "path").Str? && Get(entry.fields, "sha256").Str? by { DigestibleFields(entry); }
      text := text + (Get(entry.fields, "sha256").s + "  " + Get(entry.fields, "path").s + "\n");
    }
    assert entries[..|entries|] == entries;
    r := Some(text);
  }

  // ------------------------------------------------------------------ evidence semantics

  function StrOrEmpty(pf: Platform, j: Json): string {
    if Truthy(j) then pf.str(j) else ""
  }

  /** The last entry of each path, as `entry_map` holds them. */
  function EntryMap(entries: seq<Json>): map<string, Dict> {
    if entries == [] then map[] else
      var front := EntryMap(entries[..|entries| - 1]);
      var entry := entries[|entries| - 1];
      if entry.Obj? then front[EntryKey(entry) := entry.fields] else front
  }

  predicate FloorHolds(m: map<string, Dict>, name: string) {
    EVIDENCE_ROOT + name in m && Get(m[EVIDENCE_ROOT + name], "size").Num? && Get(m[EVIDENCE_ROOT + name], "size").n > 0
  }

  predicate FloorOk(entries: Json) {
    forall name | name in REQUIRED_EVIDENCE_PATHS :: FloorHolds(EntryMap(ItemsOrEmpty(entries)), name)
  }

  /** `[str(item) for item in value or []]`; None where Python cannot iterate. */
  function Listing(pf: Platform, j: Json): Option<seq<string>> {
    if !Truthy(j) then Some([])
    else match j
      case Arr(items) => Some(seq(|items|, k requires 0 <= k < |items| => pf.str(items[k])))
      case Obj(fields) => Some(SortText(fields.Keys))
      case Str(s) => Some(seq(|s|, k requires 0 <= k < |s| => [s[k]]))
      case _ => None
  }

  predicate ListsRequired(pf: Platform, j: Json) {
    Listing(pf, j).Some? && multiset(Listing(pf, j).value) == multiset(REQUIRED_EVIDENCE_PATHS)
  }

  lemma RaisesOrLists(pf: Platform, j: Json)
    ensures ListsRequired(pf, j) ==> Listing(pf, j).Some?
  {
    hide Listing, REQUIRED_EVIDENCE_PATHS;
  }

  predicate FlagOk(d: Dict, flag: string) {
    Get(d, flag) == Bool(flag != "staticCheckerImportedRuntime")
  }

  predicate AttestationOk(pf: Platform, d: Dict, commit: string, version: string) {
    && Get(d, "schema") == Str("release.test-attestation.v1") && Get(d, "sourceCommit") == Str(commit)
    && Get(d, "grayPythonVersion") == Str(version) && Get(d, "productionPythonVersion") == Str(version)
    && ListsRequired(pf, Get(d, "requiredEvidenceFiles"))
    && forall flag | flag in REQUIRED_TEST_ATTESTATION_FLAGS :: FlagOk(d, flag)
  }

  predicate ProductionBound(d: Dict, version: string, freeze: string) {
    && Get(d, "schema") == Str("dependency.lock.verification.v1")
    && Get(d, "verified") == Bool(true) && Get(d, "strictExtras") == Bool(true)
    && Get(d, "pythonVersion") == Str(version) && Get(d, "pipFreezeHash") == Str(freeze)
  }

  predicate ProductionOk(d: Dict, version: string, freeze: string) {
    && ProductionBound(d, version, freeze)
    && Get(d, "missing") == Arr([]) && Get(d, "mismatched") == Arr([]) && Get(d, "extras") == Arr([])
  }

  predicate PythonOk(d: Dict, version: string, freeze: string) {
    && Get(d, "schema") == Str("release.python-runtime.v1")
    && Get(d, "pythonVersion") == Str(version) && Get(d, "pipFreezeHash") == Str(freeze)
    && Get(d, "dependencyLockVerified") == Bool(true) && Get(d, "strictExtras") == Bool(true) && Get(d, "isolatedRuntime") == Bool(true)
  }

  /** `load_evidence_json`. */
  function EvidenceDict(pf: Platform, files: Files, name: string): Option<Dict> {
    if EVIDENCE_ROOT + name !in files then None else
      match pf.parse(files[EVIDENCE_ROOT + name])
      case Some(Obj(fields)) => Some(fields)
      case _ => None
  }

  predicate FreezeOk(pf: Platform, files: Files, freeze: string) {
    EVIDENCE_ROOT + "pip-freeze.txt" in files ==> Sha(pf, files[EVIDENCE_ROOT + "pip-freeze.txt"]) == freeze
  }

  predicate DigestOk(pf: Platform, files: Files, attested: Json) {
    && AttestedDigest(attested).Some?
    && (EVIDENCE_ROOT + "attested-files.sha256" in files ==>
          pf.readText(files[EVIDENCE_ROOT + "attested-files.sha256"]) == AttestedDigest(attested).value)
  }

  predicate EvidenceOk(pf: Platform, files: Files, manifest: Dict) {
    var environment := Get(manifest, "buildEnvironment");
    var commit, version := StrOrEmpty(pf, Get(manifest, "sourceCommit")), StrOrEmpty(pf, Get(DictOf(environment), "pythonVersion"));
    var freeze := StrOrEmpty(pf, Get(DictOf(environment), "pipFreezeHash"));
    && (Truthy(environment) ==> environment.Obj?)
    && FloorOk(Get(manifest, "testEvidenceFiles"))
    && EvidenceDict(pf, files, "test-attestation.json").Some?
    && AttestationOk(pf, EvidenceDict(pf, files, "test-attestation.json").value, commit, version)
    && EvidenceDict(pf, files, "production-runtime-verification.json").Some?
    && ProductionOk(EvidenceDict(pf, files, "production-runtime-verification.json").value, version, freeze)
    && EvidenceDict(pf, files, "python-runtime.json").Some?
    && PythonOk(EvidenceDict(pf, files, "python-runtime.json").value, version, freeze)
    && FreezeOk(pf, files, freeze) && DigestOk(pf, files, Get(manifest, "attestedFiles"))
  }

  // ------------------------------------------------------------------ what is on disk

  predicate AnyMatch(glob: (string, string) -> bool, patterns: seq<string>, path: string) {
    exists g | g in patterns :: glob(g, path)
  }

  /** The files that a policy's patterns select. */
  function PolicyPaths(glob: (string, string) -> bool, files: Files, patterns: seq<string>, excludes: seq<string>): set<string> {
    set p | p in files && AnyMatch(glob, patterns, p) && !AnyMatch(glob, excludes, p) && p != MANIFEST_PATH
  }

  method CollectPolicyPaths(glob: (string, string) -> bool, files: Files, patterns: seq<string>, excludes: seq<string>)
    returns (result: set<string>)
    ensures result == PolicyPaths(glob, files, patterns, excludes)
  {
    result := {};
    for k := 0 to |patterns|
      invariant result == set p | p in files && AnyMatch(glob, patterns[..k], p)
    {
      AnyMatchStep(glob, patterns, k);
      result := result + set p | p in files && glob(patterns[k], p);
    }
    assert patterns[..|patterns|] == patterns;
    ghost var selected := result;
    for k := 0 to |excludes|
      invariant result == set p | p in selected && !AnyMatch(glob, excludes[..k], p)
    {
      AnyMatchStep(glob, excludes, k);
      result := result - set p | p in files && glob(excludes[k], p);
    }
    assert excludes[..|excludes|] == excludes;
    result := result - {MANIFEST_PATH};
  }

  lemma AnyMatchStep(glob: (string, string) -> bool, patterns: seq<string>, k: nat)
    requires k < |patterns|
    ensures forall p :: AnyMatch(glob, patterns[..k + 1], p) <==> AnyMatch(glob, patterns[..k], p) || glob(patterns[k], p)
  {
    assert patterns[..k + 1] == patterns[..k] + [patterns[k]];
  }

  function EvidencePaths(files: Files): set<string> {
    set p | p in files && EVIDENCE_ROOT <= p
  }

  /** `path.exists()`: as a file, or as a directory above one. */
  predicate Exists(paths: set<string>, path: string) {
    path == "." || exists p | p in paths :: p == path || Above(path, p)
  }

  predicate Absent(paths: set<string>, raw: string) {
    SafeMemberName(raw).Ok? && !Exists(paths, SafeMemberName(raw).value)
  }

  predicate Present(paths: set<string>, raw: string) {
    SafeMemberName(raw).Ok? && Exists(paths, SafeMemberName(raw).value)
  }

  predicate AllAbsent(paths: set<string>, raws: seq<string>) {
    forall raw | raw in raws :: Absent(paths, raw)
  }

  lemma AllAbsentStep(paths: set<string>, raws: seq<string>, k: nat)
    requires k < |raws|
    ensures AllAbsent(paths, raws[..k + 1]) <==> AllAbsent(paths, raws[..k]) && Absent(paths, raws[k])
  {
    hide Absent;
    assert raws[..k + 1] == raws[..k] + [raws[k]];
    assert raws[k] in raws[..k + 1];
  }

  function TablePaths(manifest: Dict): (set<string>, set<string>, set<string>) {
    (PathsIn(Get(manifest, "runtimeFiles")), PathsIn(Get(manifest, "attestedFiles")), PathsIn(Get(manifest, "testEvidenceFiles")))
  }

  predicate SetsOk(glob: (string, string) -> bool, files: Files, manifest: Dict, policy: Dict) {
    var excludes := TextsOf(Get(policy, "excludeGlobs"));
    && PathsIn(Get(manifest, "runtimeFiles")) == PolicyPaths(glob, files, TextsOf(Get(policy, "runtimeGlobs")), excludes)
    && PathsIn(Get(manifest, "attestedFiles")) == PolicyPaths(glob, files, TextsOf(Get(policy, "attestedGlobs")), excludes)
    && PathsIn(Get(manifest, "testEvidenceFiles")) == EvidencePaths(files)
  }

  predicate TablesOk(pf: Platform, files: Files, manifest: Dict) {
    var runtime, attested := Get(manifest, "runtimeFiles"), Get(manifest, "attestedFiles");
    && EntriesOk(pf, files, runtime, {}) && EntriesOk(pf, files, attested, PathsIn(runtime))
    && EntriesOk(pf, files, Get(manifest, "testEvidenceFiles"), PathsIn(runtime) + PathsIn(attested))
  }

  /** Everything the verifier asks of a bundle. */
  predicate Acceptable(pf: Platform, glob: (string, string) -> bool, files: Files, manifest: Dict, policy: Dict) {
    && ManifestHeaderOk(manifest) && PolicyHeaderOk(manifest, policy) && PolicyListsOk(policy) && ManifestListsOk(manifest, policy) && SealOk(pf, manifest)
    && LockOk(pf, files, Get(manifest, "dependencyLock")) && EnvironmentOk(Get(manifest, "buildEnvironment"))
    && TablesOk(pf, files, manifest)
    && TestRunOk(pf, Get(manifest, "testEvidenceFiles"), Get(manifest, "testRunHash"))
    && EvidenceOk(pf, files, manifest)
    && AllAbsent(files.Keys, TextsOf(Get(manifest, "forbiddenPaths")))
    && SetsOk(glob, files, manifest, policy)
  }

  // ------------------------------------------------------------------ the verifier

  function ManifestOf(pf: Platform, files: Files): Option<Dict> {
    if MANIFEST_PATH !in files then None else
      match pf.parse(files[MANIFEST_PATH])
      case Some(Obj(fields)) => Some(fields)
      case _ => None
  }

  /** A missing policy reads as an empty object; an unreadable one is an exception. */
  function PolicyOf(pf: Platform, files: Files): Option<Dict> {
    if POLICY_PATH !in files then Some(map[]) else
      match pf.parse(files[POLICY_PATH])
      case Some(Obj(fields)) => Some(fields)
      case _ => None
  }

  /** The bundle is acceptable, with this manifest and this policy. */
  predicate Accepts(pf: Platform, glob: (string, string) -> bool, files: Files, manifest: Dict, policy: Dict) {
    ManifestOf(pf, files) == Some(manifest) && PolicyOf(pf, files) == Some(policy) && Acceptable(pf, glob, files, manifest, policy)
  }

  datatype Verdict = Raised | Verdict(
    verified: bool, runtimeVerified: nat, runtimeCount: nat, attestedVerified: nat, attestedCount: nat,
    evidenceVerified: nat, evidenceCount: nat, evidenceSemanticVerified: bool, forbidden: seq<string>)

  function CountOf(j: Json): nat {
    if j.Arr? then |j.items| else 0
  }

  class Verifier {
    const pf: Platform
    const glob: (string, string) -> bool
    const files: Files
    var errors: seq<string>
    var globalSeen: set<string>

    constructor (pf: Platform, glob: (string, string) -> bool, files: Files)
      ensures this.pf == pf && this.glob == glob && this.files == files && errors == [] && globalSeen == {}
    {
      this.pf, this.glob, this.files, errors, globalSeen := pf, glob, files, [], {};
    }

    method Check(ok: bool, message: string)
      modifies this`errors
      ensures errors == if ok then old(errors) else old(errors) + [message]
    {
      if !ok { errors := errors + [message]; }
    }

    /** `exact_keys`. */
    method ExactKeys(value: Json, expected: set<string>, what: string)
      modifies this`errors
      ensures Grew(old(|errors|), |errors|, HasExactly(value, expected))
    {
      if !value.Obj? {
        errors := errors + [what + "_must_be_object"];
        return;
      }
      Check(expected <= value.fields.Keys, what + "_missing_keys");
      Check(value.fields.Keys <= expected, what + "_extra_keys");
    }

    /** `string_list`. */
    method StringList(value: Json, what: string) returns (result: seq<string>)
      modifies this`errors
      ensures result == TextsOf(value) && Grew(old(|errors|), |errors|, IsTextList(value))
    {
      if !value.Arr? {
        errors := errors + [what + "_must_be_list"];
        return [];
      }
      var items := value.items;
      hide TextsIn, IsText, Distinct;
      result := [];
      NoTexts();
      for k := 0 to |items|
        invariant result == TextsIn(items[..k])
        invariant Grew(old(|errors|), |errors|, AllText(items[..k]))
      {
        TextStep(items, k);
        if IsText(items[k]) {
          result := result + [items[k].s];
        } else {
          errors := errors + [what + "_contains_invalid_string"];
        }
      }
      assert items[..|items|] == items;
      Check(result != [], what + "_must_not_be_empty");
      Check(Distinct(result), what + "_contains_duplicates");
    }

    method CheckManifestHeader(manifest: Dict)
      modifies this`errors
      ensures Grew(old(|errors|), |errors|, ManifestHeaderOk(manifest))
    {
      hide HasExactly, MANIFEST_KEYS, Get;
      ExactKeys(Obj(manifest), MANIFEST_KEYS, "release_manifest");
      Check(Get(manifest, "schema") == Str(SCHEMA), "release_manifest_schema_mismatch");
      Check(Get(manifest, "productVersion") == Str(PRODUCT_VERSION), "release_product_version_mismatch");
      Check(Get(manifest, "runtimeMode") == Str(MODE), "release_runtime_mode_mismatch");
    }

    method CheckPolicyHeader(manifest: Dict, policy: Dict)
      modifies this`errors
      ensures Grew(old(|errors|), |errors|, PolicyHeaderOk(manifest, policy))
    {
      hide HasExactly, SameDict, POLICY_KEYS, EXPECTED_POLICY_RULES, Get;
      ExactKeys(Obj(policy), POLICY_KEYS, "release_policy");
      Check(Get(policy, "schema") == Str("release.policy.v1"), "release_policy_schema_mismatch");
      Check(Get(policy, "productVersion") == Get(manifest, "productVersion"), "release_policy_product_version_mismatch");
      Check(Get(policy, "runtimeMode") == Get(manifest, "runtimeMode"), "release_policy_runtime_mode_mismatch");
      Check(Get(policy, "releasePythonVersion") == Str(PYTHON_VERSION), "release_policy_python_version_mismatch");
      Check(SameDict(Get(policy, "rules"), EXPECTED_POLICY_RULES), "release_policy_rules_mismatch");
    }

    method CheckPolicyLists(policy: Dict) returns (entrypoints: seq<string>, banned: seq<string>)
      modifies this`errors
      ensures Grew(old(|errors|), |errors|, PolicyListsOk(policy))
      ensures entrypoints == TextsOf(Get(policy, "allowedEntrypoints")) && banned == TextsOf(Get(policy, "forbiddenPaths"))
    {
      hide IsTextList, TextsOf, EXPECTED_RUNTIME_GLOBS, EXPECTED_ATTESTED_GLOBS, EXPECTED_EXCLUDE_GLOBS, EXPECTED_ENTRYPOINTS,
           REQUIRED_FORBIDDEN_PATHS, Get, Elements;
      var runtime := StringList(Get(policy, "runtimeGlobs"), "release_policy_runtime_globs");
      var attested := StringList(Get(policy, "attestedGlobs"), "release_policy_attested_globs");
      var excludes := StringList(Get(policy, "excludeGlobs"), "release_policy_exclude_globs");
      entrypoints := StringList(Get(policy, "allowedEntrypoints"), "release_policy_entrypoints");
      banned := StringList(Get(policy, "forbiddenPaths"), "release_policy_forbidden_paths");
      Check(Elements(runtime) == EXPECTED_RUNTIME_GLOBS, "release_policy_runtime_globs_mismatch");
      Check(Elements(attested) == EXPECTED_ATTESTED_GLOBS, "release_policy_attested_globs_mismatch");
      Check(Elements(excludes) == EXPECTED_EXCLUDE_GLOBS, "release_policy_exclude_globs_mismatch");
      Check(Elements(entrypoints) == EXPECTED_ENTRYPOINTS, "release_policy_entrypoints_invalid");
      Check(Elements(banned) == REQUIRED_FORBIDDEN_PATHS, "release_policy_forbidden_paths_invalid");
    }

    method CheckLists(manifest: Dict, policy: Dict) returns (forbidden: seq<string>)
      modifies this`errors
      ensures Grew(old(|errors|), |errors|, PolicyListsOk(policy) && ManifestListsOk(manifest, policy))
      ensures forbidden == TextsOf(Get(manifest, "forbiddenPaths"))
    {
      hide IsTextList, TextsOf, PolicyListsOk, EXPECTED_ENTRYPOINTS, Get, Elements;
      var entrypoints, banned := CheckPolicyLists(policy);
      var declared := StringList(Get(manifest, "allowedEntrypoints"), "release_manifest_entrypoints");
      forbidden := StringList(Get(manifest, "forbiddenPaths"), "release_manifest_forbidden_paths");
      Check(Elements(declared) == EXPECTED_ENTRYPOINTS, "release_manifest_entrypoints_invalid");
      Check(entrypoints == declared, "release_policy_entrypoints_mismatch");
      Check(banned == forbidden, "release_policy_forbidden_paths_mismatch");
    }

    method CheckSeal(manifest: Dict)
      modifies this`errors
      ensures Grew(old(|errors|), |errors|, SealOk(pf, manifest))
    {
      hide HasExactly, SameDict, EXPECTED_VERIFICATION_CONTRACT, IsCommit, Get, Sha, RootHash;
      Check(IsCommit(Get(manifest, "sourceCommit")), "release_source_commit_invalid");
      var canonical := Canonical(pf, manifest);
      Check(Get(manifest, "manifestHash") == Str(Sha(pf, canonical)), "release_manifest_hash_mismatch");
      Check(Get(manifest, "releaseHash") == Str(RootHash(pf, canonical)), "release_root_hash_mismatch");
      ExactKeys(Get(manifest, "verificationContract"), EXPECTED_VERIFICATION_CONTRACT.Keys, "release_verification_contract");
      Check(SameDict(Get(manifest, "verificationContract"), EXPECTED_VERIFICATION_CONTRACT), "release_verification_contract_mismatch");
    }

    method CheckLock(lock: Json)
      modifies this`errors
      ensures Grew(old(|errors|), |errors|, LockOk(pf, files, lock))
    {
      hide HasExactly, DEPENDENCY_LOCK_KEYS, Get, IsHex64;
      ExactKeys(lock, DEPENDENCY_LOCK_KEYS, "release_dependency_lock");
      var d := DictOf(lock);
      if Get(d, "path") != Str(LOCK_PATH) {
        errors := errors + ["release_dependency_lock_path_invalid"];
      } else if !IsSha(Get(d, "sha256")) {
        errors := errors + ["release_dependency_lock_hash_invalid"];
      } else if LOCK_PATH !in files {
        errors := errors + ["release_dependency_lock_missing"];
      } else if pf.hex(files[LOCK_PATH]) != Get(d, "sha256").s {
        errors := errors + ["release_dependency_lock_hash_mismatch"];
      }
      Check(Get(d, "format") == Str("pip-exact-pins-v1"), "release_dependency_lock_format_invalid");
    }

    method CheckEnvironment(environment: Json)
      modifies this`errors
      ensures Grew(old(|errors|), |errors|, EnvironmentOk(environment))
    {
      hide HasExactly, BUILD_ENVIRONMENT_KEYS, Get, IsPrefixedSha;
      ExactKeys(environment, BUILD_ENVIRONMENT_KEYS, "release_build_environment");
      Check(Get(DictOf(environment), "pythonVersion") == Str(PYTHON_VERSION), "release_python_version_invalid");
      Check(IsPrefixedSha(Get(DictOf(environment), "pipFreezeHash")), "release_pip_freeze_hash_invalid");
    }

    /** The body of the loop in `verify_entries`: an entry may be complained about and still count. */
    method VerifyEntry(entry: Json, category: string) returns (counted: bool)
      modifies this`errors, this`globalSeen
      ensures Grew(old(|errors|), |errors|, EntryOk(pf, files, entry) && RawPath(entry) !in old(globalSeen))
      ensures globalSeen == old(globalSeen) + if entry.Obj? then {RawPath(entry)} else {}
      ensures |errors| == old(|errors|) ==> counted
    {
      hide HasExactly, FILE_ENTRY_KEYS, SafeMemberName, IsHex64;
      counted := false;
      if !entry.Obj? {
        errors := errors + [category + "_file_entry_must_be_object"];
        return;
      }
      ExactKeys(entry, FILE_ENTRY_KEYS, category + "_file_entry");
      var raw := RawPath(entry);
      if raw in globalSeen {
        errors := errors + ["duplicate_release_file:" + raw];
        return;
      }
      globalSeen := globalSeen + {raw};
      var path := SafeMemberName(raw);
      var sha, size := Get(entry.fields, "sha256"), Get(entry.fields, "size");
      if path.Err? {
        errors := errors + ["unsafe_release_path:" + raw];
      } else if path.value !in files {
        errors := errors + [category + "_file_missing:" + raw];
      } else if !IsSha(sha) {
        errors := errors + ["invalid_" + category + "_file_hash:" + raw];
      } else if !size.Num? || size.n < 0 {
        errors := errors + ["invalid_" + category + "_file_size:" + raw];
      } else if |files[path.value]| != size.n {
        errors := errors + [category + "_file_size_mismatch:" + raw];
      } else if pf.hex(files[path.value]) != sha.s {
        errors := errors + [category + "_file_hash_mismatch:" + raw];
      } else {
        counted := true;
      }
    }

    /** `verify_entries`. */
    method VerifyEntries(entries: Json, category: string) returns (verified: nat, seen: set<string>)
      modifies this`errors, this`globalSeen
      ensures Grew(old(|errors|), |errors|, EntriesOk(pf, files, entries, old(globalSeen)))
      ensures globalSeen == old(globalSeen) + seen && verified <= CountOf(entries)
      ensures |errors| == old(|errors|) ==> verified == CountOf(entries) && seen == PathsIn(entries)
    {
      hide EntryOk, RawPath;
      verified, seen := 0, {};
      if !entries.Arr? {
        errors := errors + [category + "_files_must_be_list"];
        return;
      }
      if entries.items == [] {
        errors := errors + [category + "_files_empty"];
        return;
      }
      var items := entries.items;
      for k := 0 to |items|
        invariant verified <= k && globalSeen == old(globalSeen) + seen
        invariant Grew(old(|errors|), |errors|, EntriesClean(pf, files, items[..k], old(globalSeen)))
        invariant |errors| == old(|errors|) ==> verified == k && seen == RawPaths(items[..k])
      {
        ghost var count := |errors|;
        assert items[..k + 1][..k] == items[..k];
        RawPathsStep(items, k);
        var counted := VerifyEntry(items[k], category);
        if counted { verified := verified + 1; }
        if items[k].Obj? { seen := seen + {RawPath(items[k])}; }
        EntryIsObject(pf, files, items[k]);
      }
      assert items[..|items|] == items;
    }

    method CheckTestRun(entries: Json, declared: Json)
      modifies this`errors
      ensures Grew(old(|errors|), |errors|, TestRunOk(pf, entries, declared))
    {
      hide TestRunHash;
      var calculated := ExpectedTestRunHash(pf, entries);
      if calculated.None? {
        errors := errors + ["release_test_evidence_invalid"];
      } else {
        Check(declared == Str(calculated.value), "release_test_run_hash_mismatch");
      }
    }

    method CheckFloor(entries: Json)
      modifies this`errors
      ensures Grew(old(|errors|), |errors|, FloorOk(entries))
    {
      hide FloorHolds, EntryMap, EVIDENCE_ROOT;
      var m := EntryMap(ItemsOrEmpty(entries));
      var names := REQUIRED_EVIDENCE_PATHS;
      hide REQUIRED_EVIDENCE_PATHS;
      for k := 0 to |names|
        invariant Grew(old(|errors|), |errors|, forall name | name in names[..k] :: FloorHolds(m, name))
      {
        assert names[..k + 1] == names[..k] + [names[k]];
        Check(FloorHolds(m, names[k]), "required_test_evidence_missing_or_empty:" + names[k]);
      }
      assert names[..|names|] == names;
    }

    /** `load_evidence_json`: what cannot be read is reported and read as an empty object. */
    method LoadEvidence(name: string, what: string) returns (d: Dict)
      modifies this`errors
      ensures Grew(old(|errors|), |errors|, EvidenceDict(pf, files, name).Some?)
      ensures d == if EvidenceDict(pf, files, name).Some? then EvidenceDict(pf, files, name).value else map[]
    {
      hide EVIDENCE_ROOT;
      var loaded := EvidenceDict(pf, files, name);
      if loaded.None? {
        errors := errors + [what + "_read_failed"];
        return map[];
      }
      d := loaded.value;
    }

    method CheckAttestation(d: Dict, commit: string, version: string) returns (raised: bool)
      modifies this`errors
      ensures raised ==> !AttestationOk(pf, d, commit, version)
      ensures !raised ==> Grew(old(|errors|), |errors|, AttestationOk(pf, d, commit, version))
    {
      hide Get, FlagOk, REQUIRED_TEST_ATTESTATION_FLAGS, ListsRequired;
      RaisesOrLists(pf, Get(d, "requiredEvidenceFiles"));
      hide Listing;
      Check(Get(d, "schema") == Str("release.test-attestation.v1"), "test_attestation_schema_mismatch");
      Check(Get(d, "sourceCommit") == Str(commit), "test_attestation_source_commit_mismatch");
      Check(Get(d, "grayPythonVersion") == Str(version), "test_attestation_gray_python_mismatch");
      Check(Get(d, "productionPythonVersion") == Str(version), "test_attestation_production_python_mismatch");
      if Listing(pf, Get(d, "requiredEvidenceFiles")).None? { return true; }
      Check(ListsRequired(pf, Get(d, "requiredEvidenceFiles")), "test_attestation_required_evidence_mismatch");
      CheckFlags(d);
      raised := false;
    }

    method CheckFlags(d: Dict)
      modifies this`errors
      ensures Grew(old(|errors|), |errors|, forall flag | flag in REQUIRED_TEST_ATTESTATION_FLAGS :: FlagOk(d, flag))
    {
      hide FlagOk;
      var flags := REQUIRED_TEST_ATTESTATION_FLAGS;
      hide REQUIRED_TEST_ATTESTATION_FLAGS;
      for k := 0 to |flags|
        invariant Grew(old(|errors|), |errors|, forall flag | flag in flags[..k] :: FlagOk(d, flag))
      {
        assert flags[..k + 1] == flags[..k] + [flags[k]];
        Check(FlagOk(d, flags[k]), "test_attestation_flag_mismatch:" + flags[k]);
      }
      assert flags[..|flags|] == flags;
    }

    method CheckProduction(d: Dict, version: string, freeze: string)
      modifies this`errors
      ensures Grew(old(|errors|), |errors|, ProductionOk(d, version, freeze))
    {
      hide Get;
      Check(Get(d, "schema") == Str("dependency.lock.verification.v1"), "production_runtime_schema_mismatch");
      Check(Get(d, "verified") == Bool(true), "production_runtime_not_verified");
      Check(Get(d, "strictExtras") == Bool(true), "production_runtime_not_strict");
      Check(Get(d, "pythonVersion") == Str(version), "production_runtime_python_mismatch");
      Check(Get(d, "pipFreezeHash") == Str(freeze), "production_runtime_environment_hash_mismatch");
      Check(Get(d, "missing") == Arr([]), "production_runtime_missing_not_empty");
      Check(Get(d, "mismatched") == Arr([]), "production_runtime_mismatched_not_empty");
      Check(Get(d, "extras") == Arr([]), "production_runtime_extras_not_empty");
    }

    method CheckPython(d: Dict, version: string, freeze: string)
      modifies this`errors
      ensures Grew(old(|errors|), |errors|, PythonOk(d, version, freeze))
    {
      hide Get;
      Check(Get(d, "schema") == Str("release.python-runtime.v1"), "python_runtime_schema_mismatch");
      Check(Get(d, "pythonVersion") == Str(version), "python_runtime_version_mismatch");
      Check(Get(d, "pipFreezeHash") == Str(freeze), "python_runtime_environment_hash_mismatch");
      Check(Get(d, "dependencyLockVerified") == Bool(true), "python_runtime_dependency_lock_not_verified");
      Check(Get(d, "strictExtras") == Bool(true), "python_runtime_not_strict");
      Check(Get(d, "isolatedRuntime") == Bool(true), "python_runtime_not_isolated");
    }

    method CheckDigests(attested: Json, freeze: string)
      modifies this`errors
      ensures Grew(old(|errors|), |errors|, FreezeOk(pf, files, freeze) && DigestOk(pf, files, attested))
    {
      hide AttestedDigest, FreezeOk, EVIDENCE_ROOT, Sha;
      Check(FreezeOk(pf, files, freeze), "pip_freeze_evidence_hash_mismatch");
      var expected := ExpectedAttestedDigest(attested);
      if expected.None? {
        errors := errors + ["attested_source_digest_invalid"];
      } else {
        Check(EVIDENCE_ROOT + "attested-files.sha256" in files ==>
                pf.readText(files[EVIDENCE_ROOT + "attested-files.sha256"]) == expected.value, "attested_source_digest_mismatch");
      }
    }

    /** `verify_evidence_semantics`; it raises where Python would on a value of the wrong type. */
    method VerifyEvidenceSemantics(manifest: Dict) returns (raised: bool, clean: bool)
      modifies this`errors
      ensures raised ==> !EvidenceOk(pf, files, manifest)
      ensures !raised ==> Grew(old(|errors|), |errors|, EvidenceOk(pf, files, manifest)) && clean == EvidenceOk(pf, files, manifest)
    {
      hide FloorOk, AttestationOk, ProductionOk, PythonOk, FreezeOk, DigestOk, EvidenceDict, Get, StrOrEmpty;
      var start := |errors|;
      CheckFloor(Get(manifest, "testEvidenceFiles"));
      var environment := Get(manifest, "buildEnvironment");
      if Truthy(environment) && !environment.Obj? { return true, false; }
      var commit := StrOrEmpty(pf, Get(manifest, "sourceCommit"));
      var version := StrOrEmpty(pf, Get(DictOf(environment), "pythonVersion"));
      var freeze := StrOrEmpty(pf, Get(DictOf(environment), "pipFreezeHash"));
      var attestation := LoadEvidence("test-attestation.json", "test_attestation");
      raised := CheckAttestation(attestation, commit, version);
      if raised { return true, false; }
      var production := LoadEvidence("production-runtime-verification.json", "production_runtime_verification");
      CheckProduction(production, version, freeze);
      var python := LoadEvidence("python-runtime.json", "python_runtime");
      CheckPython(python, version, freeze);
      CheckDigests(Get(manifest, "attestedFiles"), freeze);
      clean := |errors| == start;
    }

    method CheckForbidden(raws: seq<string>) returns (forbidden: seq<string>)
      modifies this`errors
      ensures Grew(old(|errors|), |errors|, AllAbsent(files.Keys, raws))
      ensures |errors| == old(|errors|) ==> forbidden == []
      ensures forall raw :: raw in forbidden <==> raw in raws && Present(files.Keys, raw)
    {
      hide SafeMemberName, Exists, AllAbsent;
      forbidden := [];
      NothingPresent(files.Keys);
      assert raws[..0] == [];
      for k := 0 to |raws|
        invariant Grew(old(|errors|), |errors|, AllAbsent(files.Keys, raws[..k]))
        invariant |errors| == old(|errors|) ==> forbidden == []
        invariant forall raw :: raw in forbidden <==> raw in raws[..k] && Present(files.Keys, raw)
      {
        assert forall raw :: raw in raws[..k + 1] <==> raw in raws[..k] || raw == raws[k];
        AllAbsentStep(files.Keys, raws, k);
        var path := SafeMemberName(raws[k]);
        if path.Err? {
          errors := errors + ["unsafe_release_path:" + raws[k]];
        } else if Exists(files.Keys, path.value) {
          forbidden := forbidden + [raws[k]];
          errors := errors + ["forbidden_release_path_present:" + raws[k]];
        }
      }
      assert raws[..|raws|] == raws;
    }

    /** One category: what is on disk against what the manifest lists. */
    method CheckSet(actual: set<string>, seen: set<string>, extra: string, missing: string)
      modifies this`errors
      ensures Grew(old(|errors|), |errors|, actual == seen)
    {
      hide SortText;
      var surplus, lacking := SortText(actual - seen), SortText(seen - actual);
      EmptyListing(actual, seen);
      EmptyListing(seen, actual);
      errors := errors + seq(|surplus|, k requires 0 <= k < |surplus| => extra + surplus[k]);
      errors := errors + seq(|lacking|, k requires 0 <= k < |lacking| => missing + lacking[k]);
    }

    /** The three tables share the set of paths seen so far. */
    method CheckTables(manifest: Dict) returns (counts: (nat, nat, nat), seen: (set<string>, set<string>, set<string>))
      requires globalSeen == {}
      modifies this`errors, this`globalSeen
      ensures Grew(old(|errors|), |errors|, TablesOk(pf, files, manifest))
      ensures |errors| == old(|errors|) ==>
                && counts == (CountOf(Get(manifest, "runtimeFiles")), CountOf(Get(manifest, "attestedFiles")), CountOf(Get(manifest, "testEvidenceFiles")))
                && seen == TablePaths(manifest)
    {
      hide EntriesOk, PathsIn, Get, CountOf;
      var runtimeVerified, runtimeSeen := VerifyEntries(Get(manifest, "runtimeFiles"), "release");
      assert {} + runtimeSeen == runtimeSeen;
      var attestedVerified, attestedSeen := VerifyEntries(Get(manifest, "attestedFiles"), "attested");
      var evidenceVerified, evidenceSeen := VerifyEntries(Get(manifest, "testEvidenceFiles"), "test_evidence");
      counts, seen := (runtimeVerified, attestedVerified, evidenceVerified), (runtimeSeen, attestedSeen, evidenceSeen);
    }

    method CheckSets(manifest: Dict, policy: Dict, seen: (set<string>, set<string>, set<string>))
      modifies this`errors
      ensures old(|errors|) <= |errors|
      ensures seen == TablePaths(manifest) ==> Grew(old(|errors|), |errors|, SetsOk(glob, files, manifest, policy))
    {
      hide Get, PathsIn, TextsOf, PolicyPaths, EvidencePaths;
      var excludes := TextsOf(Get(policy, "excludeGlobs"));
      var runtime := CollectPolicyPaths(glob, files, TextsOf(Get(policy, "runtimeGlobs")), excludes);
      CheckSet(runtime, seen.0, "extra_runtime_file:", "manifest_runtime_file_outside_policy:");
      var attested := CollectPolicyPaths(glob, files, TextsOf(Get(policy, "attestedGlobs")), excludes);
      CheckSet(attested, seen.1, "extra_attested_file:", "manifest_attested_file_outside_policy:");
      CheckSet(EvidencePaths(files), seen.2, "extra_test_evidence_file:", "manifest_test_evidence_file_missing:");
    }

    /** `verify`: verified exactly when the bundle is acceptable, and then every counter equals the
        length of its list. */
    method Verify() returns (v: Verdict)
      requires errors == [] && globalSeen == {}
      modifies this
      ensures forall manifest, policy | ManifestOf(pf, files) == Some(manifest) && PolicyOf(pf, files) == Some(policy) ::
                (v.Verdict? && v.verified) <==> Accepts(pf, glob, files, manifest, policy)
      ensures v.Verdict? && v.verified ==> ManifestOf(pf, files).Some? && PolicyOf(pf, files).Some?
      ensures forall manifest | v.Verdict? && v.verified && ManifestOf(pf, files) == Some(manifest) ::
                && v.runtimeVerified == v.runtimeCount == CountOf(Get(manifest, "runtimeFiles"))
                && v.attestedVerified == v.attestedCount == CountOf(Get(manifest, "attestedFiles"))
                && v.evidenceVerified == v.evidenceCount == CountOf(Get(manifest, "testEvidenceFiles"))
                && v.evidenceSemanticVerified && v.forbidden == []
      ensures forall manifest, raw | v.Verdict? && ManifestOf(pf, files) == Some(manifest) ::
                raw in v.forbidden <==> raw in TextsOf(Get(manifest, "forbiddenPaths")) && Present(files.Keys, raw)
    {
      hide Present, ManifestOf, PolicyOf, ManifestHeaderOk, PolicyHeaderOk, PolicyListsOk, ManifestListsOk, SealOk, LockOk, EnvironmentOk, TablesOk, TestRunOk, EvidenceOk,
           AllAbsent, SetsOk, Get, TextsOf, CountOf, PathsIn;
      var manifest, policy := ManifestOf(pf, files), PolicyOf(pf, files);
      if manifest.None? || policy.None? { return Raised; }
      var m := manifest.value;
      CheckManifestHeader(m);
      CheckPolicyHeader(m, policy.value);
      var banned := CheckLists(m, policy.value);
      CheckSeal(m);
      CheckLock(Get(m, "dependencyLock"));
      CheckEnvironment(Get(m, "buildEnvironment"));
      var counts, seen := CheckTables(m);
      CheckTestRun(Get(m, "testEvidenceFiles"), Get(m, "testRunHash"));
      var raised, clean := VerifyEvidenceSemantics(m);
      if raised { return Raised; }
      var forbidden := CheckForbidden(banned);
      CheckSets(m, policy.value, seen);
      v := Verdict(errors == [], counts.0, CountOf(Get(m, "runtimeFiles")), counts.1, CountOf(Get(m, "attestedFiles")),
                   counts.2, CountOf(Get(m, "testEvidenceFiles")), clean, forbidden);
    }
  }

  lemma EntryIsObject(pf: Platform, files: Files, entry: Json)
    ensures EntryOk(pf, files, entry) ==> entry.Obj?
  {
  }

  lemma EmptyListing(a: set<string>, b: set<string>)
    ensures SortText(a - b) == [] <==> a <= b
  {
    if a <= b { assert a - b == {}; }
    if a - b == {} {
      forall x | x in a ensures x in b { assert x !in a - b; }
    }
  }

  lemma NothingPresent(paths: set<string>)
    ensures AllAbsent(paths, [])
  {
  }

  lemma RawPathsStep(items: seq<Json>, k: nat)
    requires k < |items|
    ensures RawPaths(items[..k + 1]) == RawPaths(items[..k]) + {RawPath(items[k])}
  {
    assert items[..k + 1] == items[..k] + [items[k]];
  }
}
