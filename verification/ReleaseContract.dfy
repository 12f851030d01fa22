/** What the release verifier accepts, told in terms of the bundle alone: its files, the fields of the
    manifest and of the policy, and the evidence documents. Nothing here uses the verifier's checks. */
module ReleaseContract {
  import opened Sorting
  import opened TextOrder
  import opened Json
  import opened Platform
  import opened Wrappers
  import opened PosixPath
  import opened ReleaseVerifier
  import opened ReleaseTheorems
  import ThreeStages
  import ReleaseAgreement

  // ------------------------------------------------------------------ the old deployments

  /** Nothing of the old deployments is in a release: none of these files, and nothing below such a name. */
  ghost predicate LegacyIsGone(files: set<string>) {
    && !Occurs(files, "scripts/deploy_v22.sh") && !Occurs(files, "scripts/deploy_fast.sh") && !Occurs(files, "scripts/deploy_atomic.sh")
    && !Occurs(files, "scripts/check_v22_contract.py") && !Occurs(files, "scripts/check_v16_manifest.py")
    && !Occurs(files, "scripts/verify_release_manifest.py") && !Occurs(files, ".github/workflows/v22-single-runtime.yml")
    && !Occurs(files, "docs/V22.3.0.1_INTERFACE_CLOSURE.md") && !Occurs(files, "MVP_V16_FILE_MANIFEST.md")
    && !Occurs(files, "config/v16_mvp_file_manifest.json") && !Occurs(files, "src/services/end_to_end_agent_flow_v226_hardening_service.py")
  }

  lemma TwoParts(name: string, a: string, b: string)
    requires name == a + "/" + b && Plain(a) && Plain(b)
    ensures SafeMemberName(name) == Ok(name) && name != "."
  {
    hide SafeMemberName;
    ThreeStages.JoinTwo(a, b);
  }

  lemma ThreeParts(name: string, a: string, b: string, c: string)
    requires name == a + "/" + b + "/" + c && Plain(a) && Plain(b) && Plain(c)
    ensures SafeMemberName(name) == Ok(name) && name != "."
  {
    hide SafeMemberName;
    ThreeStages.JoinThree(a, b, c);
  }

  /** A name is read as it stands, and is not the root. */
  ghost predicate Fixed(name: string) {
    SafeMemberName(name) == Ok(name) && name != "."
  }

  lemma InDirectory(name: string, dir: string, rest: string)
    requires name == dir + "/" + rest && dir != "" && dir[0] != '.' && '/' !in dir && rest != "" && rest[0] != '.' && '/' !in rest
    ensures Fixed(name)
  {
    hide SafeMemberName, Plain;
    ThreeStages.PlainWord(dir);
    ThreeStages.PlainWord(rest);
    TwoParts(name, dir, rest);
  }

  lemma ScriptsAreFixed()
    ensures Fixed("scripts/deploy_v22.sh") && Fixed("scripts/deploy_fast.sh") && Fixed("scripts/deploy_atomic.sh")
  {
    hide Fixed;
    InDirectory("scripts/deploy_v22.sh", "scripts", "deploy_v22.sh");
    InDirectory("scripts/deploy_fast.sh", "scripts", "deploy_fast.sh");
    InDirectory("scripts/deploy_atomic.sh", "scripts", "deploy_atomic.sh");
  }

  lemma CheckIsFixed()
    ensures Fixed("scripts/check_v22_contract.py")
  {
    hide Fixed;
    InDirectory("scripts/check_v22_contract.py", "scripts", "check_v22_contract.py");
  }

  lemma OlderCheckIsFixed()
    ensures Fixed("scripts/check_v16_manifest.py")
  {
    hide Fixed;
    InDirectory("scripts/check_v16_manifest.py", "scripts", "check_v16_manifest.py");
  }

  lemma OldVerifierIsFixed()
    ensures Fixed("scripts/verify_release_manifest.py")
  {
    hide Fixed;
    InDirectory("scripts/verify_release_manifest.py", "scripts", "verify_release_manifest.py");
  }

  lemma DocumentIsFixed()
    ensures Fixed("docs/V22.3.0.1_INTERFACE_CLOSURE.md")
  {
    hide Fixed;
    InDirectory("docs/V22.3.0.1_INTERFACE_CLOSURE.md", "docs", "V22.3.0.1_INTERFACE_CLOSURE.md");
  }

  lemma OldConfigIsFixed()
    ensures Fixed("config/v16_mvp_file_manifest.json")
  {
    hide Fixed;
    InDirectory("config/v16_mvp_file_manifest.json", "config", "v16_mvp_file_manifest.json");
  }

  lemma OldManifestIsFixed()
    ensures Fixed("MVP_V16_FILE_MANIFEST.md")
  {
    hide Fixed;
    AloneIsFixed("MVP_V16_FILE_MANIFEST.md");
  }

  lemma AloneIsFixed(name: string)
    requires name != "" && name[0] != '.' && '/' !in name
    ensures Fixed(name)
  {
    hide SafeMemberName;
    ThreeStages.PlainWord(name);
    hide Plain;
    PlainIsSafeMember([name]);
  }

  lemma WorkflowIsFixed()
    ensures Fixed(".github/workflows/v22-single-runtime.yml")
  {
    hide SafeMemberName, Plain;
    DotDirectoryIsPlain();
    ThreeStages.PlainWord("workflows");
    ThreeStages.PlainWord("v22-single-runtime.yml");
    ThreeParts(".github" + "/" + "workflows" + "/" + "v22-single-runtime.yml", ".github", "workflows", "v22-single-runtime.yml");
    WorkflowName();
  }

  lemma DotDirectoryIsPlain()
    ensures Plain(".github")
  {
  }

  lemma WorkflowName()
    ensures ".github/workflows/v22-single-runtime.yml" == ".github" + "/" + "workflows" + "/" + "v22-single-runtime.yml"
  {
  }

  lemma ServiceIsFixed()
    ensures Fixed("src/services/end_to_end_agent_flow_v226_hardening_service.py")
  {
    hide SafeMemberName, Plain;
    var head, tail := "end_to_end_agent_flow_", "v226_hardening_service.py";
    ThreeStages.PlainWord("src");
    ThreeStages.PlainWord("services");
    ThreeStages.PlainWord(head + tail);
    ServiceName();
    ThreeParts("src" + "/" + "services" + "/" + (head + tail), "src", "services", head + tail);
  }

  lemma ServiceName()
    ensures "src/services/end_to_end_agent_flow_v226_hardening_service.py" ==
              "src" + "/" + "services" + "/" + ("end_to_end_agent_flow_" + "v226_hardening_service.py")
  {
    assert "src/services/end_to_end_agent_flow_" == "src" + "/" + "services" + "/" + "end_to_end_agent_flow_";
    ServiceSplits();
  }

  lemma ServiceSplits()
    ensures "src/services/end_to_end_agent_flow_v226_hardening_service.py" == "src/services/end_to_end_agent_flow_" + "v226_hardening_service.py"
  {
  }

  /** No accepted bundle holds anything of the old deployments. */
  lemma AcceptedHasNoLegacy(pf: Platform, glob: (string, string) -> bool, files: Files, m: Dict, policy: Dict)
    requires Accepts(pf, glob, files, m, policy)
    ensures LegacyIsGone(files.Keys)
  {
    hide ManifestHeaderOk, PolicyHeaderOk, SealOk, LockOk, EnvironmentOk, TablesOk, TestRunOk, EvidenceOk, SetsOk, ManifestOf, PolicyOf, Fixed,
         Occurs, IsTextList, TextsOf, Get, Absent, EXPECTED_RUNTIME_GLOBS, EXPECTED_ATTESTED_GLOBS, EXPECTED_EXCLUDE_GLOBS, EXPECTED_ENTRYPOINTS,
         LegacyIsGone, REQUIRED_FORBIDDEN_PATHS;
    forall name | name in REQUIRED_FORBIDDEN_PATHS && Fixed(name) ensures !Occurs(files.Keys, name) {
      assert name in Elements(TextsOf(Get(policy, "forbiddenPaths")));
      assert Absent(files.Keys, name);
      FixedIsGone(files.Keys, name);
    }
    LegacyNames(files.Keys);
  }

  lemma FixedIsGone(files: set<string>, name: string)
    requires Fixed(name)
    ensures Absent(files, name) <==> !Occurs(files, name)
  {
    hide SafeMemberName, Occurs;
    PresentExactly(files, name);
  }

  lemma LegacyNames(files: set<string>)
    requires forall name | name in REQUIRED_FORBIDDEN_PATHS && Fixed(name) :: !Occurs(files, name)
    ensures LegacyIsGone(files)
  {
    hide Occurs, Fixed;
    ScriptsAreFixed();
    CheckIsFixed();
    OlderCheckIsFixed();
    OldVerifierIsFixed();
    DocumentIsFixed();
    OldConfigIsFixed();
    OldManifestIsFixed();
    WorkflowIsFixed();
    ServiceIsFixed();
  }

  // ------------------------------------------------------------------ lists of text

  /** A list of these texts, each once, in any order. */
  ghost predicate ListIs(j: Json, texts: set<string>) {
    && j.Arr? && (forall a, b | 0 <= a < b < |j.items| :: j.items[a] != j.items[b])
    && forall item :: item in j.items <==> item.Str? && item.s in texts
  }

  lemma {:induction false} DistinctExactly(texts: seq<string>)
    ensures Distinct(texts) <==> forall a, b | 0 <= a < b < |texts| :: texts[a] != texts[b]
    ensures |Elements(texts)| <= |texts|
  {
    if texts != [] {
      var n := |texts| - 1;
      DistinctExactly(texts[..n]);
      assert Elements(texts) == Elements(texts[..n]) + {texts[n]} by { assert texts == texts[..n] + [texts[n]]; }
      if texts[n] in Elements(texts[..n]) {
        var a :| 0 <= a < n && texts[a] == texts[n];
        assert Elements(texts) == Elements(texts[..n]);
      } else {
        forall a | 0 <= a < n ensures texts[a] != texts[n] { assert texts[..n][a] in Elements(texts[..n]); }
        assert forall a, b | 0 <= a < b < n :: texts[..n][a] == texts[a] && texts[..n][b] == texts[b];
      }
    }
  }

  lemma ListExactly(j: Json, texts: set<string>)
    requires texts != {} && "" !in texts
    ensures (IsTextList(j) && Elements(TextsOf(j)) == texts) <==> ListIs(j, texts)
  {
    hide TextsIn, Distinct;
    if j.Arr? && forall item | item in j.items :: IsText(item) {
      ReleaseAgreement.TextsInAll(j.items);
      var listed := TextsIn(j.items);
      DistinctExactly(listed);
      TextsAre(j.items, listed, texts);
    }
  }

  lemma TextsAre(items: seq<Json>, listed: seq<string>, texts: set<string>)
    requires |listed| == |items| && forall k | 0 <= k < |items| :: items[k] == Str(listed[k])
    ensures (forall a, b | 0 <= a < b < |listed| :: listed[a] != listed[b]) <==> forall a, b | 0 <= a < b < |items| :: items[a] != items[b]
    ensures Elements(listed) == texts <==> forall item :: item in items <==> item.Str? && item.s in texts
    ensures texts != {} && Elements(listed) == texts ==> listed != []
  {
    forall text ensures text in Elements(listed) <==> Str(text) in items {
      if text in listed { var k :| 0 <= k < |listed| && listed[k] == text; assert items[k] == Str(text); }
      if Str(text) in items { var k :| 0 <= k < |items| && items[k] == Str(text); }
    }
    forall item | item in items ensures item.Str? { var k :| 0 <= k < |items| && items[k] == item; }
    if Elements(listed) == texts {
      forall item ensures item in items <==> item.Str? && item.s in texts {}
    }
    if forall item :: item in items <==> item.Str? && item.s in texts {
      forall text ensures text in Elements(listed) <==> text in texts { assert Str(text) in items <==> text in texts; }
    }
  }

  // ------------------------------------------------------------------ headers, rules, lists

  ghost predicate HeaderSays(m: Dict) {
    && m.Keys == {"schema", "productVersion", "runtimeMode", "sourceCommit", "runtimeFiles", "attestedFiles", "testEvidenceFiles", "forbiddenPaths",
                  "allowedEntrypoints", "dependencyLock", "buildEnvironment", "testRunHash", "verificationContract", "manifestHash", "releaseHash"}
    && Get(m, "schema") == Str("release.manifest.v1") && Get(m, "productVersion") == Str("22.4.0")
    && Get(m, "runtimeMode") == Str("single_release_sealed_runtime")
  }

  /** True, or the number that Python takes for it; likewise false. */
  predicate Says(j: Json, yes: bool) {
    j == Bool(yes) || j == Num(if yes then 1 else 0)
  }

  ghost predicate RulesSay(j: Json) {
    var yes := {
      "manifestRequiredInProduction", "runtimeAndWorkerReleaseMustMatch", "deploymentControllerMustComeFromReleaseBundle",
      "releaseBundleMustBeOutsideDeploymentRoot", "dependencyLockRequired", "attestedFilesMustShipInBundle",
      "testEvidenceFilesMustShipInBundle", "testRunHashMustBeRecomputed", "exactPythonPatchRequired",
      "python36BootstrapCompatibilityRequired", "rootVerifierExplicitOldHashRequiredForRotation",
      "validatedSqliteBackupRequiredBeforeSwitch", "sqliteDataIdentityRequiredAfterSwitch", "sqliteBackupContentHashRequired",
      "sqliteSchemaMustMatchDeploymentLineage", "sharedStateMigrationRequiredOnFirstSeal", "singleActiveRepositoryServiceRequired"};
    var no := {
      "deployCurrentBranchDirectly", "extraRuntimeFileAllowed", "forbiddenPathAllowed", "runtimeDependencyDriftAllowed",
      "rootVerifierOrdinaryRotationAllowed", "strayRepositoryProcessAllowed", "legacyMutableWorkingTreeAllowedAfterSuccess"};
    j.Obj? && j.fields.Keys == yes + no && forall rule | rule in yes + no :: Says(j.fields[rule], rule in yes)
  }

  ghost predicate PolicySays(policy: Dict) {
    && policy.Keys == {"schema", "productVersion", "runtimeMode", "releasePythonVersion", "runtimeGlobs", "attestedGlobs", "excludeGlobs",
                       "allowedEntrypoints", "forbiddenPaths", "rules"}
    && Get(policy, "schema") == Str("release.policy.v1") && Get(policy, "productVersion") == Str("22.4.0")
    && Get(policy, "runtimeMode") == Str("single_release_sealed_runtime") && Get(policy, "releasePythonVersion") == Str("3.11.9")
    && RulesSay(Get(policy, "rules"))
  }

  lemma HeaderExactly(m: Dict)
    ensures ManifestHeaderOk(m) <==> HeaderSays(m)
  {
    hide Get;
  }

  lemma RulesExactly(j: Json)
    ensures SameDict(j, EXPECTED_POLICY_RULES) <==> RulesSay(j)
  {
    hide TRUE_RULES, FALSE_RULES, SameScalar, Says, RulesSay;
    assert EXPECTED_POLICY_RULES.Keys == TRUE_RULES + FALSE_RULES;
    forall a, yes ensures SameScalar(a, Bool(yes)) <==> Says(a, yes) { ScalarExactly(a, yes); }
    RulesAre(j);
  }

  lemma ScalarExactly(a: Json, yes: bool)
    ensures SameScalar(a, Bool(yes)) <==> Says(a, yes)
  {
  }

  lemma RulesAre(j: Json)
    ensures RulesSay(j) <==>
              j.Obj? && j.fields.Keys == TRUE_RULES + FALSE_RULES && forall rule | rule in TRUE_RULES + FALSE_RULES :: Says(j.fields[rule], rule in TRUE_RULES)
  {
    hide Says;
  }

  lemma PolicyExactly(m: Dict, policy: Dict)
    requires HeaderSays(m)
    ensures PolicyHeaderOk(m, policy) <==> PolicySays(policy)
  {
    hide Get, SameDict, RulesSay, EXPECTED_POLICY_RULES;
    RulesExactly(Get(policy, "rules"));
  }

  /** The five lists of the policy, and the two that the manifest repeats word for word. */
  ghost predicate ListsSay(m: Dict, policy: Dict) {
    && ListIs(Get(policy, "runtimeGlobs"), {
         "src/**/*", "web_demo/**/*", "config/**/*", "scripts/start_server.sh", "scripts/runtime_service_resolver.sh",
         "scripts/runtime_exclusivity_guard.sh", "scripts/sqlite_backup_rotate.py", "scripts/sqlite_data_identity.py",
         "scripts/release_verifier.py", "scripts/install_release_verifier.sh", "scripts/deploy_release.sh",
         "scripts/check_dependency_lock.py", "requirements.txt", "requirements.lock", "release/release-policy.json",
         "release/release-manifest.schema.json", "runtime/java/**/*", "scripts/start_v24_authority.sh"})
    && ListIs(Get(policy, "attestedGlobs"), {
         "tests/**/*", "pytest.ini", "requirements-dev.lock", "scripts/check_release_contract.py", "scripts/check_python36_bootstrap.py",
         "scripts/generate_release_manifest.py", "scripts/deploy_github_artifact.sh", ".github/workflows/release-hash-seal.yml",
         ".github/workflows/historical-contract-audit.yml", "README.md", "VERSION.md", "docs/V22.4.0_RELEASE_HASH_SEAL.md",
         "docs/V22.4.0.7_GITHUB_ARTIFACT_TRANSPORT.md", "java-control-plane/src/main/java/**/*",
         "governance/v24/production-authority-bundle-v24.json", "governance/v24/authority-generation-policy-v24.json",
         "scripts/build_v24_production_bundle.sh", "scripts/verify_v24_authority_generation.sh", "scripts/verify_v24_production_bundle.sh",
         ".github/workflows/v24-production-authority-bundle.yml"})
    && ListIs(Get(policy, "excludeGlobs"), {"**/__pycache__/**", "**/*.pyc", ".venv/**", "logs/**", "data/**", "outputs/**"})
    && ListIs(Get(policy, "allowedEntrypoints"), {
         "src.api.main:app", "src.services.agent_runtime_hard_interface_v230_service:run_agent_pipeline_tick_hard"})
    && ListIs(Get(policy, "forbiddenPaths"), {
         "scripts/deploy_v22.sh", "scripts/deploy_fast.sh", "scripts/deploy_atomic.sh", "scripts/check_v22_contract.py",
         "scripts/check_v16_manifest.py", "scripts/verify_release_manifest.py", ".github/workflows/v22-single-runtime.yml",
         "docs/V22.3.0.1_INTERFACE_CLOSURE.md", "MVP_V16_FILE_MANIFEST.md", "config/v16_mvp_file_manifest.json",
         "src/services/end_to_end_agent_flow_v226_hardening_service.py"})
    && Get(m, "allowedEntrypoints") == Get(policy, "allowedEntrypoints") && Get(m, "forbiddenPaths") == Get(policy, "forbiddenPaths")
  }

  lemma ListsExactly(m: Dict, policy: Dict)
    ensures PolicyListsOk(policy) && ManifestListsOk(m, policy) <==> ListsSay(m, policy)
  {
    hide EXPECTED_RUNTIME_GLOBS, EXPECTED_ATTESTED_GLOBS, EXPECTED_EXCLUDE_GLOBS, EXPECTED_ENTRYPOINTS, REQUIRED_FORBIDDEN_PATHS, IsTextList, TextsOf, Get,
         ListIs, ListsSay;
    NoEmptyText();
    forall j ensures IsTextList(j) && Elements(TextsOf(j)) == EXPECTED_RUNTIME_GLOBS <==> ListIs(j, EXPECTED_RUNTIME_GLOBS) { ListExactly(j, EXPECTED_RUNTIME_GLOBS); }
    forall j ensures IsTextList(j) && Elements(TextsOf(j)) == EXPECTED_ATTESTED_GLOBS <==> ListIs(j, EXPECTED_ATTESTED_GLOBS) { ListExactly(j, EXPECTED_ATTESTED_GLOBS); }
    forall j ensures IsTextList(j) && Elements(TextsOf(j)) == EXPECTED_EXCLUDE_GLOBS <==> ListIs(j, EXPECTED_EXCLUDE_GLOBS) { ListExactly(j, EXPECTED_EXCLUDE_GLOBS); }
    forall j ensures IsTextList(j) && Elements(TextsOf(j)) == EXPECTED_ENTRYPOINTS <==> ListIs(j, EXPECTED_ENTRYPOINTS) { ListExactly(j, EXPECTED_ENTRYPOINTS); }
    forall j ensures IsTextList(j) && Elements(TextsOf(j)) == REQUIRED_FORBIDDEN_PATHS <==> ListIs(j, REQUIRED_FORBIDDEN_PATHS) { ListExactly(j, REQUIRED_FORBIDDEN_PATHS); }
    forall i, j | IsTextList(i) && IsTextList(j) ensures TextsOf(i) == TextsOf(j) <==> i == j { SameTexts(i, j); }
    ListsAre(m, policy);
  }

  lemma ListsAre(m: Dict, policy: Dict)
    ensures ListsSay(m, policy) <==>
              && ListIs(Get(policy, "runtimeGlobs"), EXPECTED_RUNTIME_GLOBS) && ListIs(Get(policy, "attestedGlobs"), EXPECTED_ATTESTED_GLOBS)
              && ListIs(Get(policy, "excludeGlobs"), EXPECTED_EXCLUDE_GLOBS) && ListIs(Get(policy, "allowedEntrypoints"), EXPECTED_ENTRYPOINTS)
              && ListIs(Get(policy, "forbiddenPaths"), REQUIRED_FORBIDDEN_PATHS)
              && Get(m, "allowedEntrypoints") == Get(policy, "allowedEntrypoints") && Get(m, "forbiddenPaths") == Get(policy, "forbiddenPaths")
  {
    hide ListIs, Get;
  }

  lemma NoEmptyText()
    ensures EXPECTED_RUNTIME_GLOBS != {} && "" !in EXPECTED_RUNTIME_GLOBS && EXPECTED_ATTESTED_GLOBS != {} && "" !in EXPECTED_ATTESTED_GLOBS
    ensures EXPECTED_EXCLUDE_GLOBS != {} && "" !in EXPECTED_EXCLUDE_GLOBS && EXPECTED_ENTRYPOINTS != {} && "" !in EXPECTED_ENTRYPOINTS
    ensures REQUIRED_FORBIDDEN_PATHS != {} && "" !in REQUIRED_FORBIDDEN_PATHS
  {
    assert "src/**/*" in EXPECTED_RUNTIME_GLOBS && "tests/**/*" in EXPECTED_ATTESTED_GLOBS && ".venv/**" in EXPECTED_EXCLUDE_GLOBS;
    assert "src.api.main:app" in EXPECTED_ENTRYPOINTS && "scripts/deploy_v22.sh" in REQUIRED_FORBIDDEN_PATHS;
  }

  lemma SameTexts(i: Json, j: Json)
    requires IsTextList(i) && IsTextList(j)
    ensures TextsOf(i) == TextsOf(j) <==> i == j
  {
    hide TextsIn, Distinct;
    ReleaseAgreement.TextsInAll(i.items);
    ReleaseAgreement.TextsInAll(j.items);
    if TextsOf(i) == TextsOf(j) {
      forall k | 0 <= k < |i.items| ensures i.items[k] == j.items[k] {}
      assert i.items == j.items;
    }
  }

  // ------------------------------------------------------------------ seal, lock, environment

  lemma HexExactly(s: string)
    ensures IsHex64(s) <==> HexText(s, 64)
    ensures IsCommit(Str(s)) <==> HexText(s, 40)
  {
    forall c: char ensures IsHexDigit(c) <==> c in "0123456789abcdef" { HexDigitExactly(c); }
  }

  /** The verification contract, word for word; Python's `==` takes 1 for true and 0 for false. */
  ghost predicate ContractSays(j: Json) {
    && j.Obj? && j.fields.Keys == {"hashAlgorithm", "canonicalJson", "extraRuntimeFileAllowed", "forbiddenPathAllowed", "dependencyLockRequired",
                                   "attestedFilesRequired", "testEvidenceFilesRequired"}
    && Get(j.fields, "hashAlgorithm") == Str("sha256") && Get(j.fields, "canonicalJson") == Str("utf8_sorted_keys_compact")
    && Says(Get(j.fields, "extraRuntimeFileAllowed"), false) && Says(Get(j.fields, "forbiddenPathAllowed"), false)
    && Says(Get(j.fields, "dependencyLockRequired"), true) && Says(Get(j.fields, "attestedFilesRequired"), true)
    && Says(Get(j.fields, "testEvidenceFilesRequired"), true)
  }

  lemma ContractExactly(j: Json)
    ensures SameDict(j, EXPECTED_VERIFICATION_CONTRACT) <==> ContractSays(j)
    ensures SameDict(j, EXPECTED_VERIFICATION_CONTRACT) ==> HasExactly(j, EXPECTED_VERIFICATION_CONTRACT.Keys)
  {
    hide SameScalar, Says;
    forall a, yes ensures SameScalar(a, Bool(yes)) <==> Says(a, yes) { ScalarExactly(a, yes); }
    forall a: Json, s: string ensures SameScalar(a, Str(s)) <==> a == Str(s) { TextScalar(a, s); }
  }

  lemma TextScalar(a: Json, s: string)
    ensures SameScalar(a, Str(s)) <==> a == Str(s)
  {
  }

  /** The two hashes of the manifest are over everything else in it. */
  ghost predicate SealSays(pf: Platform, m: Dict) {
    var unsigned := pf.canon(Obj(m - {"manifestHash", "releaseHash"}));
    && Get(m, "sourceCommit").Str? && HexText(Get(m, "sourceCommit").s, 40)
    && Get(m, "manifestHash") == Str("sha256:" + pf.hex(unsigned))
    && Get(m, "releaseHash") == Str("sha256:" + pf.hex(pf.utf8("release.manifest.v1") + [0] + unsigned))
    && ContractSays(Get(m, "verificationContract"))
  }

  lemma SealExactly(pf: Platform, m: Dict)
    ensures SealOk(pf, m) <==> SealSays(pf, m)
  {
    hide ContractSays, SameDict, EXPECTED_VERIFICATION_CONTRACT, HasExactly, HexText, IsHexDigit;
    ContractExactly(Get(m, "verificationContract"));
    if Get(m, "sourceCommit").Str? { HexExactly(Get(m, "sourceCommit").s); }
    hide Get;
  }

  ghost predicate LockSays(pf: Platform, files: Files, j: Json) {
    && "requirements.lock" in files
    && j == Obj(map["path" := Str("requirements.lock"), "sha256" := Str(pf.hex(files["requirements.lock"])), "format" := Str("pip-exact-pins-v1")])
  }

  lemma LockExactly(pf: Platform, files: Files, j: Json)
    requires Faithful(pf)
    ensures LockOk(pf, files, j) <==> LockSays(pf, files, j)
  {
    hide IsHexDigit;
    if "requirements.lock" in files {
      var data := files["requirements.lock"];
      assert IsHex64(pf.hex(data));
      LockIs(j, Str(pf.hex(data)));
    }
  }

  lemma LockIs(j: Json, sha: Json)
    ensures j == Obj(map["path" := Str("requirements.lock"), "sha256" := sha, "format" := Str("pip-exact-pins-v1")]) <==>
              && HasExactly(j, DEPENDENCY_LOCK_KEYS) && Get(DictOf(j), "path") == Str("requirements.lock") && Get(DictOf(j), "sha256") == sha
              && Get(DictOf(j), "format") == Str("pip-exact-pins-v1")
  {
    if HasExactly(j, DEPENDENCY_LOCK_KEYS) && Get(DictOf(j), "path") == Str("requirements.lock") && Get(DictOf(j), "sha256") == sha
       && Get(DictOf(j), "format") == Str("pip-exact-pins-v1") {
      assert j.fields == map["path" := Str("requirements.lock"), "sha256" := sha, "format" := Str("pip-exact-pins-v1")];
    }
  }

  ghost predicate EnvironmentSays(j: Json) {
    exists digest :: HexText(digest, 64) && j == Obj(map["pythonVersion" := Str("3.11.9"), "pipFreezeHash" := Str("sha256:" + digest)])
  }

  lemma EnvironmentExactly(j: Json)
    ensures EnvironmentOk(j) <==> EnvironmentSays(j)
  {
    hide HexText, IsHex64;
    if EnvironmentOk(j) {
      var freeze := Get(DictOf(j), "pipFreezeHash").s;
      HexExactly(freeze[7..]);
      assert freeze == "sha256:" + freeze[7..];
      assert j.fields == map["pythonVersion" := Str("3.11.9"), "pipFreezeHash" := Str("sha256:" + freeze[7..])];
    }
    if digest :| HexText(digest, 64) && j == Obj(map["pythonVersion" := Str("3.11.9"), "pipFreezeHash" := Str("sha256:" + digest)]) {
      HexExactly(digest);
      assert ("sha256:" + digest)[7..] == digest;
    }
  }

  // ------------------------------------------------------------------ the three tables

  /** The entry names a file of the bundle by a safe name, with its hash and its size, and says nothing else. */
  ghost predicate EntrySays(pf: Platform, files: Files, e: Json) {
    exists raw ::
      && SafeMemberName(raw).Ok? && SafeMemberName(raw).value in files
      && e == Obj(map["path" := Str(raw), "sha256" := Str(pf.hex(files[SafeMemberName(raw).value])), "size" := Num(|files[SafeMemberName(raw).value]|)])
  }

  lemma EntryIs(e: Json, raw: string, sha: Json, size: Json)
    ensures e == Obj(map["path" := Str(raw), "sha256" := sha, "size" := size]) <==>
              && HasExactly(e, FILE_ENTRY_KEYS) && Get(DictOf(e), "path") == Str(raw) && Get(DictOf(e), "sha256") == sha && Get(DictOf(e), "size") == size
  {
    if HasExactly(e, FILE_ENTRY_KEYS) && Get(DictOf(e), "path") == Str(raw) && Get(DictOf(e), "sha256") == sha && Get(DictOf(e), "size") == size {
      assert e.fields == map["path" := Str(raw), "sha256" := sha, "size" := size];
    }
  }

  lemma EntryExactly(pf: Platform, files: Files, e: Json)
    requires Faithful(pf)
    ensures EntryOk(pf, files, e) <==> EntrySays(pf, files, e)
    ensures EntrySays(pf, files, e) ==> e.Obj? && Get(e.fields, "path").Str? && Get(e.fields, "path").s == RawPath(e) != "" && EntryKey(e) == RawPath(e) && Digestible(e)
  {
    hide SafeMemberName, IsHexDigit, FILE_ENTRY_KEYS, HasExactly;
    assert SafeMemberName("").Err? by { NoNameIsUnsafe(); }
    forall raw, sha, size ensures e == Obj(map["path" := Str(raw), "sha256" := sha, "size" := size]) <==>
        HasExactly(e, FILE_ENTRY_KEYS) && Get(DictOf(e), "path") == Str(raw) && Get(DictOf(e), "sha256") == sha && Get(DictOf(e), "size") == size {
      EntryIs(e, raw, sha, size);
    }
    assert HasExactly(e, FILE_ENTRY_KEYS) ==> e.Obj? by { KeyedIsObject(e); }
    forall b: Bytes ensures IsHex64(pf.hex(b)) {}
    if EntryOk(pf, files, e) {
      var raw := RawPath(e);
      var data := files[SafeMemberName(raw).value];
      assert e == Obj(map["path" := Str(raw), "sha256" := Str(pf.hex(data)), "size" := Num(|data|)]);
    }
  }

  lemma KeyedIsObject(e: Json)
    ensures HasExactly(e, FILE_ENTRY_KEYS) ==> e.Obj?
  {
  }

  lemma NoNameIsUnsafe()
    ensures SafeMemberName("").Err?
  {
  }

  /** The path that an entry shows. */
  function PathIn(e: Json): string {
    if e.Obj? && Get(e.fields, "path").Str? then Get(e.fields, "path").s else ""
  }

  function ShaIn(e: Json): string {
    if e.Obj? && Get(e.fields, "sha256").Str? then Get(e.fields, "sha256").s else ""
  }

  ghost predicate TableSays(pf: Platform, files: Files, j: Json) {
    j.Arr? && j.items != [] && forall e | e in j.items :: EntrySays(pf, files, e)
  }

  /** Three tables in order, and no path in them twice. */
  ghost predicate TablesSay(pf: Platform, files: Files, m: Dict) {
    && TableSays(pf, files, Get(m, "runtimeFiles")) && TableSays(pf, files, Get(m, "attestedFiles")) && TableSays(pf, files, Get(m, "testEvidenceFiles"))
    && var all := Get(m, "runtimeFiles").items + Get(m, "attestedFiles").items + Get(m, "testEvidenceFiles").items;
    forall a, b | 0 <= a < b < |all| :: PathIn(all[a]) != PathIn(all[b])
  }

  lemma DifferentParts(x: seq<Json>, y: seq<Json>)
    ensures AllDifferent(x + y) <==> AllDifferent(x) && AllDifferent(y) && RawPaths(x) !! RawPaths(y)
    ensures RawPaths(x + y) == RawPaths(x) + RawPaths(y)
  {
    hide RawPath;
    var z := x + y;
    if AllDifferent(z) {
      forall a, b | 0 <= a < b < |x| ensures RawPath(x[a]) != RawPath(x[b]) { assert z[a] == x[a] && z[b] == x[b]; }
      forall a, b | 0 <= a < b < |y| ensures RawPath(y[a]) != RawPath(y[b]) { assert z[|x| + a] == y[a] && z[|x| + b] == y[b]; }
      forall e, f | e in x && f in y ensures RawPath(e) != RawPath(f) {
        var a :| 0 <= a < |x| && x[a] == e;
        var b :| 0 <= b < |y| && y[b] == f;
        assert z[a] == e && z[|x| + b] == f;
      }
    }
    if AllDifferent(x) && AllDifferent(y) && RawPaths(x) !! RawPaths(y) {
      forall a, b | 0 <= a < b < |z| ensures RawPath(z[a]) != RawPath(z[b]) {
        if a < |x| && |x| <= b { assert z[a] in x && z[b] in y; assert RawPath(z[a]) in RawPaths(x) && RawPath(z[b]) in RawPaths(y); }
      }
    }
  }

  lemma TableExactly(pf: Platform, files: Files, j: Json, before: set<string>)
    requires Faithful(pf)
    ensures EntriesOk(pf, files, j, before) <==> TableSays(pf, files, j) && AllDifferent(j.items) && RawPaths(j.items) !! before
  {
    hide EntryOk, EntrySays, RawPath, Faithful, EntriesClean, AllDifferent;
    if j.Arr? {
      forall e ensures EntryOk(pf, files, e) <==> EntrySays(pf, files, e) { EntryExactly(pf, files, e); }
      EntriesCleanExactly(pf, files, j.items, before);
    }
  }

  lemma DifferentExactly(all: seq<Json>)
    ensures AllDifferent(all) <==> forall a, b | 0 <= a < b < |all| :: PathIn(all[a]) != PathIn(all[b])
  {
    forall e ensures PathIn(e) == RawPath(e) { PathIs(e); }
    hide PathIn, RawPath;
  }

  lemma TablesExactly(pf: Platform, files: Files, m: Dict)
    requires Faithful(pf)
    ensures TablesOk(pf, files, m) <==> TablesSay(pf, files, m)
  {
    hide Get, Faithful, AllDifferent, RawPaths, EntriesOk, TableSays, PathIn, EntrySays;
    var runtime, attested, evidence := Get(m, "runtimeFiles"), Get(m, "attestedFiles"), Get(m, "testEvidenceFiles");
    TableExactly(pf, files, runtime, {});
    TableExactly(pf, files, attested, PathsIn(runtime));
    TableExactly(pf, files, evidence, PathsIn(runtime) + PathsIn(attested));
    assert (TableSays(pf, files, runtime) ==> runtime.Arr?) && (TableSays(pf, files, attested) ==> attested.Arr?) && (TableSays(pf, files, evidence) ==> evidence.Arr?) by {
      TablesAreArrays(pf, files, runtime);
      TablesAreArrays(pf, files, attested);
      TablesAreArrays(pf, files, evidence);
    }
    if runtime.Arr? && attested.Arr? && evidence.Arr? {
      DifferentParts(runtime.items, attested.items);
      DifferentParts(runtime.items + attested.items, evidence.items);
      DifferentExactly(runtime.items + attested.items + evidence.items);
    }
  }

  lemma TablesAreArrays(pf: Platform, files: Files, j: Json)
    ensures TableSays(pf, files, j) ==> j.Arr?
  {
    hide EntrySays;
  }

  lemma PathIs(e: Json)
    ensures PathIn(e) == RawPath(e)
  {
  }

  // ------------------------------------------------------------------ digests over the tables

  /** The entries in the order of their paths. */
  ghost predicate InPathOrder(entries: seq<Json>, sorted: seq<Json>) {
    multiset(sorted) == multiset(entries) && forall a, b | 0 <= a < b < |sorted| :: Less(PathIn(sorted[a]), PathIn(sorted[b]))
  }

  function RunBytes(pf: Platform, entries: seq<Json>): Bytes {
    if entries == [] then [] else pf.utf8(PathIn(entries[0])) + [0] + pf.unhex(ShaIn(entries[0])) + RunBytes(pf, entries[1..])
  }

  function LinesOf(entries: seq<Json>): string {
    if entries == [] then "" else ShaIn(entries[0]) + "  " + PathIn(entries[0]) + "\n" + LinesOf(entries[1..])
  }

  /** The table's digest: path, zero byte and hash of every entry, in the order of the paths. */
  ghost predicate RunSays(pf: Platform, entries: seq<Json>, declared: Json) {
    exists sorted :: InPathOrder(entries, sorted) && declared == Str("sha256:" + pf.hex(RunBytes(pf, sorted)))
  }

  lemma {:induction false} RunBytesAppend(pf: Platform, entries: seq<Json>, e: Json)
    ensures RunBytes(pf, entries + [e]) == RunBytes(pf, entries) + (pf.utf8(PathIn(e)) + [0] + pf.unhex(ShaIn(e)))
    ensures LinesOf(entries + [e]) == LinesOf(entries) + (ShaIn(e) + "  " + PathIn(e) + "\n")
  {
    hide PathIn, ShaIn;
    var longer := entries + [e];
    if entries == [] {
      assert longer[1..] == [];
    } else {
      RunBytesAppend(pf, entries[1..], e);
      assert longer[1..] == entries[1..] + [e];
    }
  }

  lemma {:induction false} DigestsExactly(pf: Platform, entries: seq<Json>)
    requires forall e | e in entries :: Digestible(e)
    ensures RunMaterial(pf, entries) == Some(RunBytes(pf, entries)) && DigestText(entries) == Some(LinesOf(entries))
  {
    if entries != [] {
      var n := |entries| - 1;
      assert entries == entries[..n] + [entries[n]] && entries[n] in entries;
      DigestsExactly(pf, entries[..n]);
      RunBytesAppend(pf, entries[..n], entries[n]);
      ReleaseVerifier.DigestibleFields(entries[n]);
    }
  }

  /** Sorting by path is the one listing in that order. */
  lemma SortedExactly(entries: seq<Json>, sorted: seq<Json>)
    requires AllDifferent(entries) && forall e | e in entries :: EntryKey(e) == RawPath(e)
    ensures InPathOrder(entries, sorted) <==> sorted == SortBy(entries, EntryKey)
  {
    hide Less, SortBy, EntryKey, RawPath;
    var s := SortBy(entries, EntryKey);
    SortIsInOrder(entries);
    if InPathOrder(entries, sorted) { OneOrder(entries, sorted, s); }
  }

  lemma SortIsInOrder(entries: seq<Json>)
    requires AllDifferent(entries) && forall e | e in entries :: EntryKey(e) == RawPath(e)
    ensures InPathOrder(entries, SortBy(entries, EntryKey))
  {
    hide Less, SortBy, EntryKey, RawPath;
    var s := SortBy(entries, EntryKey);
    SortByKeeps(entries, EntryKey);
    SortByOrders(entries, EntryKey);
    TextIsOrdered();
    StayDifferent(entries, s);
    forall a, b | 0 <= a < b < |s| ensures Less(PathIn(s[a]), PathIn(s[b])) {
      assert s[a] in multiset(s) && s[b] in multiset(s);
      PathIs(s[a]);
      PathIs(s[b]);
      LessTotal(RawPath(s[a]), RawPath(s[b]));
    }
  }

  lemma {:induction false} StayDifferent(entries: seq<Json>, s: seq<Json>)
    requires multiset(s) == multiset(entries) && AllDifferent(entries)
    ensures AllDifferent(s)
  {
    hide RawPath;
    forall a, b | 0 <= a < b < |s| ensures RawPath(s[a]) != RawPath(s[b]) {
      assert s[a] in multiset(s) && s[b] in multiset(s);
      var i :| 0 <= i < |entries| && entries[i] == s[a];
      var j :| 0 <= j < |entries| && entries[j] == s[b];
      if i == j {
        OneEach(entries, i);
        TwoOf(s, a, b);
      }
    }
  }

  lemma OneEach(entries: seq<Json>, i: nat)
    requires AllDifferent(entries) && i < |entries|
    ensures multiset(entries)[entries[i]] == 1
  {
    hide RawPath;
    var front, back := entries[..i], entries[i + 1..];
    assert entries == front + [entries[i]] + back;
    assert entries[i] !in front && entries[i] !in back;
  }

  lemma TwoOf(s: seq<Json>, a: nat, b: nat)
    requires a < b < |s| && s[a] == s[b]
    ensures multiset(s)[s[a]] >= 2
  {
    assert s == s[..b] + [s[b]] + s[b + 1..];
    assert s[..b][a] in multiset(s[..b]);
  }

  lemma OneOrder(entries: seq<Json>, x: seq<Json>, y: seq<Json>)
    requires AllDifferent(entries) && InPathOrder(entries, x) && InPathOrder(entries, y)
    ensures x == y
  {
    hide Less, PathIn, RawPath;
    var p, q := seq(|x|, k requires 0 <= k < |x| => PathIn(x[k])), seq(|y|, k requires 0 <= k < |y| => PathIn(y[k]));
    forall t ensures t in Elements(p) <==> t in Elements(q) {
      assert t in Elements(p) <==> exists e :: e in multiset(entries) && PathIn(e) == t by { PathsOfListing(entries, x, p, t); }
      assert t in Elements(q) <==> exists e :: e in multiset(entries) && PathIn(e) == t by { PathsOfListing(entries, y, q, t); }
    }
    TextIsOrdered();
    AscendingUnique(p, q, Less);
    assert |x| == |p| == |q| == |y|;
    forall k | 0 <= k < |x| ensures x[k] == y[k] {
      assert p[k] == q[k];
      assert x[k] in multiset(x) && y[k] in multiset(y);
      SamePathSameEntry(entries, x[k], y[k]);
    }
  }

  lemma PathsOfListing(entries: seq<Json>, x: seq<Json>, p: seq<string>, t: string)
    requires multiset(x) == multiset(entries) && |p| == |x| && forall k | 0 <= k < |x| :: p[k] == PathIn(x[k])
    ensures t in Elements(p) <==> exists e :: e in multiset(entries) && PathIn(e) == t
  {
    hide PathIn;
    if t in p { var k :| 0 <= k < |p| && p[k] == t; assert x[k] in multiset(x); }
    if e :| e in multiset(entries) && PathIn(e) == t {
      assert e in multiset(x);
      var k :| 0 <= k < |x| && x[k] == e;
      assert p[k] == t;
    }
  }

  lemma SamePathSameEntry(entries: seq<Json>, e: Json, f: Json)
    requires AllDifferent(entries) && e in multiset(entries) && f in multiset(entries) && PathIn(e) == PathIn(f)
    ensures e == f
  {
    hide PathIn, RawPath;
    PathIs(e);
    PathIs(f);
    var i :| 0 <= i < |entries| && entries[i] == e;
    var j :| 0 <= j < |entries| && entries[j] == f;
    assert i == j;
  }

  /** The declared digest of a table in order is the right one exactly if it is this one. */
  lemma RunExactly(pf: Platform, files: Files, j: Json, declared: Json)
    requires Faithful(pf) && TableSays(pf, files, j) && AllDifferent(j.items)
    ensures TestRunOk(pf, j, declared) <==> RunSays(pf, j.items, declared)
    ensures forall text :: AttestedDigest(j) == Some(text) <==> exists sorted :: InPathOrder(j.items, sorted) && text == LinesOf(sorted)
  {
    hide Faithful, EntrySays, SortBy, EntryKey, RawPath, Digestible, InPathOrder, RunMaterial, DigestText, RunBytes, LinesOf, AllDifferent;
    forall e | e in j.items ensures Digestible(e) && EntryKey(e) == RawPath(e) { EntryExactly(pf, files, e); }
    var sorted := SortBy(j.items, EntryKey);
    SortByElements(j.items, EntryKey);
    assert forall e | e in sorted :: e in Elements(sorted);
    DigestsExactly(pf, sorted);
    forall other ensures InPathOrder(j.items, other) <==> other == sorted { SortedExactly(j.items, other); }
  }

  // ------------------------------------------------------------------ the evidence

  ghost predicate HasEvidence(entries: seq<Json>, name: string) {
    exists e :: e in entries && PathIn(e) == "release/attestation/" + name && e.Obj? && Get(e.fields, "size").Num? && Get(e.fields, "size").n > 0
  }

  ghost predicate FloorSays(entries: seq<Json>) {
    forall name | name in ["compile-syntax.log", "static-contract.log", "app-route-smoke.log", "pytest.log", "production-runtime-verification.json",
                           "attested-files.sha256", "test-attestation.json", "pip-freeze.txt", "python-runtime.json"] :: HasEvidence(entries, name)
  }

  lemma {:induction false} EntryMapExactly(entries: seq<Json>, p: string)
    requires AllDifferent(entries) && forall e | e in entries :: e.Obj? && EntryKey(e) == RawPath(e)
    ensures p in EntryMap(entries) <==> exists e :: e in entries && RawPath(e) == p
    ensures forall e | e in entries && RawPath(e) == p :: p in EntryMap(entries) && EntryMap(entries)[p] == e.fields
  {
    hide RawPath, EntryKey;
    if entries != [] {
      var n := |entries| - 1;
      assert entries == entries[..n] + [entries[n]] && entries[n] in entries;
      DifferentStep(entries);
      EntryMapExactly(entries[..n], p);
      assert forall e :: e in entries <==> e in entries[..n] || e == entries[n];
    }
  }

  lemma FloorExactly(j: Json)
    requires j.Arr? && AllDifferent(j.items) && forall e | e in j.items :: e.Obj? && EntryKey(e) == RawPath(e)
    ensures FloorOk(j) <==> FloorSays(j.items)
  {
    hide RawPath, EntryKey, EntryMap, HasEvidence, AllDifferent;
    forall name ensures FloorHolds(EntryMap(j.items), name) <==> HasEvidence(j.items, name) { HoldsExactly(j.items, name); }
    hide FloorHolds;
  }

  lemma HoldsExactly(entries: seq<Json>, name: string)
    requires AllDifferent(entries) && forall e | e in entries :: e.Obj? && EntryKey(e) == RawPath(e)
    ensures FloorHolds(EntryMap(entries), name) <==> HasEvidence(entries, name)
  {
    hide RawPath, EntryKey, EntryMap, AllDifferent, PathIn;
    forall e ensures PathIn(e) == RawPath(e) { PathIs(e); }
    EntryMapExactly(entries, "release/attestation/" + name);
  }

  /** What the attestation must say yes to. */
  const PASSED: seq<string> := [
    "cleanProcessRouteSmokePassed", "dependencyLockVerified", "cleanProductionRuntimeVerified", "python36BootstrapChecked",
    "rootVerifierPinningChecked", "ordinaryVerifierRotationRejected", "compilePassed", "shellSyntaxPassed", "frontendSyntaxPassed",
    "staticContractPassed", "pytestPassed", "sqliteBackupLifecycleChecked", "legacyBranchDeployAbsent", "shadowServiceRetirementChecked",
    "strayRuntimeRetirementChecked", "forbiddenLegacyPathCleanupChecked", "legacyWorkingTreeRetirementChecked",
    "externalBundleControllerChecked", "attestedSourcesSealed", "testEvidenceSealed", "testLogsSealed"]

  ghost predicate AttestationSays(pf: Platform, d: Dict, commit: Json, version: string) {
    && Get(d, "schema") == Str("release.test-attestation.v1") && Get(d, "sourceCommit") == commit
    && Get(d, "grayPythonVersion") == Str(version) && Get(d, "productionPythonVersion") == Str(version)
    && (exists texts :: Listing(pf, Get(d, "requiredEvidenceFiles")) == Some(texts) &&
          multiset(texts) == multiset(["compile-syntax.log", "static-contract.log", "app-route-smoke.log", "pytest.log",
            "production-runtime-verification.json", "attested-files.sha256", "test-attestation.json", "pip-freeze.txt", "python-runtime.json"]))
    && Get(d, "staticCheckerImportedRuntime") == Bool(false)
    && forall flag | flag in PASSED :: Get(d, flag) == Bool(true)
  }

  ghost predicate ProductionSays(d: Dict, version: string, freeze: Json) {
    && Get(d, "schema") == Str("dependency.lock.verification.v1") && Get(d, "verified") == Bool(true) && Get(d, "strictExtras") == Bool(true)
    && Get(d, "pythonVersion") == Str(version) && Get(d, "pipFreezeHash") == freeze
    && Get(d, "missing") == Arr([]) && Get(d, "mismatched") == Arr([]) && Get(d, "extras") == Arr([])
  }

  ghost predicate PythonSays(d: Dict, version: string, freeze: Json) {
    && Get(d, "schema") == Str("release.python-runtime.v1") && Get(d, "pythonVersion") == Str(version) && Get(d, "pipFreezeHash") == freeze
    && Get(d, "dependencyLockVerified") == Bool(true) && Get(d, "strictExtras") == Bool(true) && Get(d, "isolatedRuntime") == Bool(true)
  }

  lemma AttestationExactly(pf: Platform, d: Dict, commit: string, version: string)
    ensures AttestationOk(pf, d, commit, version) <==> AttestationSays(pf, d, Str(commit), version)
  {
    hide Get, Listing;
    FlagsExactly(d);
    hide REQUIRED_TEST_ATTESTATION_FLAGS, FlagOk, PASSED;
  }

  lemma FlagsExactly(d: Dict)
    ensures (forall flag | flag in REQUIRED_TEST_ATTESTATION_FLAGS :: FlagOk(d, flag)) <==>
              Get(d, "staticCheckerImportedRuntime") == Bool(false) && forall flag | flag in PASSED :: Get(d, flag) == Bool(true)
  {
    FlagsSplit();
    OneIsApart();
    hide Get, PASSED, REQUIRED_TEST_ATTESTATION_FLAGS;
    var odd := "staticCheckerImportedRuntime";
    assert forall flag :: flag in REQUIRED_TEST_ATTESTATION_FLAGS <==> flag in [odd] || flag in PASSED;
    assert odd in [odd] && forall flag | flag in [odd] :: flag == odd;
  }

  lemma FlagsSplit()
    ensures REQUIRED_TEST_ATTESTATION_FLAGS == ["staticCheckerImportedRuntime"] + PASSED
  {
  }

  lemma OneIsApart()
    ensures "staticCheckerImportedRuntime" !in PASSED
  {
    Lengths();
    hide PASSED;
    forall k | 0 <= k < |PASSED| ensures PASSED[k] != "staticCheckerImportedRuntime" {
      assert k == 0 || k == 11 || |PASSED[k]| != 28;
    }
  }

  lemma Lengths()
    ensures |PASSED| == 21 && forall k | 0 <= k < 21 && k != 0 && k != 11 :: |PASSED[k]| != 28
    ensures PASSED[0][1] == 'l' && PASSED[11][1] == 'q'
  {
  }

  lemma ReportsExactly(d: Dict, version: string, freeze: string)
    ensures ProductionOk(d, version, freeze) <==> ProductionSays(d, version, Str(freeze))
    ensures PythonOk(d, version, freeze) <==> PythonSays(d, version, Str(freeze))
  {
    hide Get;
  }

  /** The evidence file has these bytes. */
  ghost predicate IsEvidence(files: Files, name: string, data: Bytes) {
    "release/attestation/" + name in files && files["release/attestation/" + name] == data
  }

  /** The evidence file holds this JSON object. */
  ghost predicate Holds(pf: Platform, files: Files, name: string, d: Dict) {
    exists data :: IsEvidence(files, name, data) && pf.parse(data) == Some(Obj(d))
  }

  /** The text is the digest file of the entries: hash and path of each, in the order of the paths. */
  ghost predicate DigestSays(entries: seq<Json>, text: string) {
    exists sorted :: InPathOrder(entries, sorted) && text == LinesOf(sorted)
  }

  /** The nine evidence files are listed and not empty, the three documents bear out commit, interpreter and
      environment, the freeze has the environment's hash, and the digest file lists the attested files. */
  ghost predicate EvidenceSays(pf: Platform, files: Files, attested: seq<Json>, evidence: seq<Json>, commit: Json, freeze: Json) {
    && FloorSays(evidence)
    && (exists d :: Holds(pf, files, "test-attestation.json", d) && AttestationSays(pf, d, commit, "3.11.9"))
    && (exists d :: Holds(pf, files, "production-runtime-verification.json", d) && ProductionSays(d, "3.11.9", freeze))
    && (exists d :: Holds(pf, files, "python-runtime.json", d) && PythonSays(d, "3.11.9", freeze))
    && (forall data | IsEvidence(files, "pip-freeze.txt", data) :: freeze == Str("sha256:" + pf.hex(data)))
    && (forall data | IsEvidence(files, "attested-files.sha256", data) :: DigestSays(attested, pf.readText(data)))
  }

  lemma DocumentExactly(pf: Platform, files: Files, name: string, d: Dict)
    ensures EvidenceDict(pf, files, name) == Some(d) <==> Holds(pf, files, name, d)
  {
  }

  lemma DocumentsExactly(pf: Platform, files: Files, commit: string, freeze: string)
    ensures (EvidenceDict(pf, files, "test-attestation.json").Some? &&
             AttestationOk(pf, EvidenceDict(pf, files, "test-attestation.json").value, commit, "3.11.9")) <==>
              exists d :: Holds(pf, files, "test-attestation.json", d) && AttestationSays(pf, d, Str(commit), "3.11.9")
    ensures (EvidenceDict(pf, files, "production-runtime-verification.json").Some? &&
             ProductionOk(EvidenceDict(pf, files, "production-runtime-verification.json").value, "3.11.9", freeze)) <==>
              exists d :: Holds(pf, files, "production-runtime-verification.json", d) && ProductionSays(d, "3.11.9", Str(freeze))
    ensures (EvidenceDict(pf, files, "python-runtime.json").Some? &&
             PythonOk(EvidenceDict(pf, files, "python-runtime.json").value, "3.11.9", freeze)) <==>
              exists d :: Holds(pf, files, "python-runtime.json", d) && PythonSays(d, "3.11.9", Str(freeze))
  {
    hide EvidenceDict, Holds, AttestationOk, AttestationSays, ProductionOk, ProductionSays, PythonOk, PythonSays;
    forall name, d ensures EvidenceDict(pf, files, name) == Some(d) <==> Holds(pf, files, name, d) { DocumentExactly(pf, files, name, d); }
    forall d ensures AttestationOk(pf, d, commit, "3.11.9") <==> AttestationSays(pf, d, Str(commit), "3.11.9") { AttestationExactly(pf, d, commit, "3.11.9"); }
    forall d ensures ProductionOk(d, "3.11.9", freeze) <==> ProductionSays(d, "3.11.9", Str(freeze)) { ReportsExactly(d, "3.11.9", freeze); }
    forall d ensures PythonOk(d, "3.11.9", freeze) <==> PythonSays(d, "3.11.9", Str(freeze)) { ReportsExactly(d, "3.11.9", freeze); }
  }

  lemma EnvironmentReads(pf: Platform, m: Dict)
    requires Faithful(pf) && EnvironmentSays(Get(m, "buildEnvironment")) && Get(m, "sourceCommit").Str? && HexText(Get(m, "sourceCommit").s, 40)
    ensures var environment := Get(m, "buildEnvironment");
            && environment.Obj? && Truthy(environment) && StrOrEmpty(pf, Get(m, "sourceCommit")) == Get(m, "sourceCommit").s
            && StrOrEmpty(pf, Get(DictOf(environment), "pythonVersion")) == "3.11.9"
            && Get(DictOf(environment), "pipFreezeHash") == Str(StrOrEmpty(pf, Get(DictOf(environment), "pipFreezeHash")))
  {
    hide Faithful, HexText;
    var environment := Get(m, "buildEnvironment");
    var digest :| HexText(digest, 64) && environment == Obj(map["pythonVersion" := Str("3.11.9"), "pipFreezeHash" := Str("sha256:" + digest)]);
    ReleaseAgreement.StrIsFaithful(pf, Get(m, "sourceCommit").s);
    ReleaseAgreement.StrIsFaithful(pf, "3.11.9");
    ReleaseAgreement.StrIsFaithful(pf, "sha256:" + digest);
    assert "pythonVersion" in environment.fields;
    NotShort(Get(m, "sourceCommit").s);
    assert |"sha256:" + digest| > 0 && |"3.11.9"| == 6;
  }

  lemma NotShort(s: string)
    requires HexText(s, 40)
    ensures s != ""
  {
  }

  /** What the accepted environment makes of the evidence checks. */
  lemma EvidenceReads(pf: Platform, files: Files, m: Dict, commit: string, freeze: string)
    requires Get(m, "sourceCommit") == Str(commit) && Get(m, "buildEnvironment").Obj? && Truthy(Get(m, "buildEnvironment"))
    requires StrOrEmpty(pf, Get(m, "sourceCommit")) == commit
    requires StrOrEmpty(pf, Get(DictOf(Get(m, "buildEnvironment")), "pythonVersion")) == "3.11.9"
    requires StrOrEmpty(pf, Get(DictOf(Get(m, "buildEnvironment")), "pipFreezeHash")) == freeze
    ensures EvidenceOk(pf, files, m) <==>
              && FloorOk(Get(m, "testEvidenceFiles"))
              && (exists d :: Holds(pf, files, "test-attestation.json", d) && AttestationSays(pf, d, Str(commit), "3.11.9"))
              && (exists d :: Holds(pf, files, "production-runtime-verification.json", d) && ProductionSays(d, "3.11.9", Str(freeze)))
              && (exists d :: Holds(pf, files, "python-runtime.json", d) && PythonSays(d, "3.11.9", Str(freeze)))
              && FreezeOk(pf, files, freeze) && DigestOk(pf, files, Get(m, "attestedFiles"))
  {
    hide FloorOk, Holds, EvidenceDict, AttestationOk, AttestationSays, ProductionOk, ProductionSays, PythonOk, PythonSays, FreezeOk, DigestOk, StrOrEmpty,
         Truthy, Get;
    DocumentsExactly(pf, files, commit, freeze);
  }

  lemma EvidenceExactly(pf: Platform, files: Files, m: Dict)
    requires Faithful(pf) && TablesSay(pf, files, m) && EnvironmentSays(Get(m, "buildEnvironment"))
    requires Get(m, "sourceCommit").Str? && HexText(Get(m, "sourceCommit").s, 40)
    ensures EvidenceOk(pf, files, m) <==>
              EvidenceSays(pf, files, ItemsOrEmpty(Get(m, "attestedFiles")), ItemsOrEmpty(Get(m, "testEvidenceFiles")),
                           Get(m, "sourceCommit"), Get(DictOf(Get(m, "buildEnvironment")), "pipFreezeHash"))
  {
    hide Faithful, EnvironmentSays, HexText, FloorOk, FloorSays, Holds, EvidenceDict, AttestationSays, ProductionSays, PythonSays, DigestSays, AttestedDigest,
         EntrySays, TablesSay, TableSays, StrOrEmpty, Truthy, Get, FreezeOk, DigestOk, IsEvidence, EvidenceOk, AllDifferent, EntryKey, RawPath;
    EnvironmentReads(pf, m);
    var freeze := StrOrEmpty(pf, Get(DictOf(Get(m, "buildEnvironment")), "pipFreezeHash"));
    EvidenceReads(pf, files, m, Get(m, "sourceCommit").s, freeze);
    TablesGive(pf, files, m);
    FloorExactly(Get(m, "testEvidenceFiles"));
    AttestedExactly(pf, files, Get(m, "attestedFiles"));
    FreezeExactly(pf, files, freeze);
  }

  lemma FreezeExactly(pf: Platform, files: Files, freeze: string)
    ensures FreezeOk(pf, files, freeze) <==> forall data | IsEvidence(files, "pip-freeze.txt", data) :: Str(freeze) == Str("sha256:" + pf.hex(data))
  {
    if "release/attestation/" + "pip-freeze.txt" in files { assert IsEvidence(files, "pip-freeze.txt", files["release/attestation/" + "pip-freeze.txt"]); }
  }

  lemma AttestedExactly(pf: Platform, files: Files, j: Json)
    requires Faithful(pf) && j.Arr? && TableSays(pf, files, j) && AllDifferent(j.items)
    ensures DigestOk(pf, files, j) <==> forall data | IsEvidence(files, "attested-files.sha256", data) :: DigestSays(j.items, pf.readText(data))
  {
    hide Faithful, TableSays, AttestedDigest, InPathOrder, LinesOf, AllDifferent;
    DigestIsThere(pf, files, j);
    RunExactly(pf, files, j, Null);
    if "release/attestation/" + "attested-files.sha256" in files {
      var data := files["release/attestation/" + "attested-files.sha256"];
      assert IsEvidence(files, "attested-files.sha256", data);
      assert AttestedDigest(j) == Some(pf.readText(data)) <==> DigestSays(j.items, pf.readText(data));
    }
  }

  lemma DigestIsThere(pf: Platform, files: Files, j: Json)
    requires Faithful(pf) && TableSays(pf, files, j)
    ensures AttestedDigest(j).Some?
  {
    hide Faithful, EntrySays, SortBy, Digestible, DigestText;
    forall e | e in j.items ensures Digestible(e) { EntryExactly(pf, files, e); }
    SortByElements(j.items, EntryKey);
    assert forall e | e in SortBy(j.items, EntryKey) :: e in Elements(SortBy(j.items, EntryKey));
    DigestsExactly(pf, SortBy(j.items, EntryKey));
  }

  lemma TablesGive(pf: Platform, files: Files, m: Dict)
    requires Faithful(pf) && TablesSay(pf, files, m)
    ensures TableSays(pf, files, Get(m, "runtimeFiles")) && TableSays(pf, files, Get(m, "attestedFiles")) && TableSays(pf, files, Get(m, "testEvidenceFiles"))
    ensures Get(m, "attestedFiles").Arr? && Get(m, "testEvidenceFiles").Arr?
    ensures AllDifferent(Get(m, "attestedFiles").items) && AllDifferent(Get(m, "testEvidenceFiles").items)
    ensures forall e | e in Get(m, "testEvidenceFiles").items :: e.Obj? && EntryKey(e) == RawPath(e)
  {
    hide EntryOk, EntrySays, RawPath, Faithful, AllDifferent, EntryKey, EntriesClean, Get;
    TablesExactly(pf, files, m);
    var runtime, attested, evidence := Get(m, "runtimeFiles"), Get(m, "attestedFiles"), Get(m, "testEvidenceFiles");
    TableExactly(pf, files, attested, PathsIn(runtime));
    TableExactly(pf, files, evidence, PathsIn(runtime) + PathsIn(attested));
    forall e | e in evidence.items ensures e.Obj? && EntryKey(e) == RawPath(e) { EntryExactly(pf, files, e); }
  }

  // ------------------------------------------------------------------ what is on disk

  /** The list names the text. */
  predicate Lists(j: Json, text: string) {
    j.Arr? && text != "" && Str(text) in j.items
  }

  lemma {:induction false} TextsInExactly(items: seq<Json>, text: string)
    ensures text in TextsIn(items) <==> text != "" && Str(text) in items
  {
    if items != [] {
      var n := |items| - 1;
      TextsInExactly(items[..n], text);
      assert items == items[..n] + [items[n]];
    }
  }

  /** A pattern of the list selects the file. */
  ghost predicate Selected(glob: (string, string) -> bool, j: Json, p: string) {
    exists pattern :: Lists(j, pattern) && glob(pattern, p)
  }

  ghost predicate Listed(j: Json, p: string) {
    j.Arr? && exists e :: e in j.items && PathIn(e) == p
  }

  /** Runtime and attested table list exactly what the policy selects and does not exclude, the manifest aside;
      the third table lists exactly what lies below the attestation directory. */
  ghost predicate SetsSay(glob: (string, string) -> bool, files: Files, m: Dict, policy: Dict) {
    && (forall p :: Listed(Get(m, "runtimeFiles"), p) <==>
          && p in files && Selected(glob, Get(policy, "runtimeGlobs"), p) && !Selected(glob, Get(policy, "excludeGlobs"), p)
          && p != "release/release-manifest.json")
    && (forall p :: Listed(Get(m, "attestedFiles"), p) <==>
          && p in files && Selected(glob, Get(policy, "attestedGlobs"), p) && !Selected(glob, Get(policy, "excludeGlobs"), p)
          && p != "release/release-manifest.json")
    && forall p :: Listed(Get(m, "testEvidenceFiles"), p) <==> p in files && "release/attestation/" <= p
  }

  lemma SelectedExactly(glob: (string, string) -> bool, j: Json, p: string)
    ensures AnyMatch(glob, TextsOf(j), p) <==> Selected(glob, j, p)
  {
    hide TextsIn;
    if j.Arr? { forall text ensures text in TextsIn(j.items) <==> text != "" && Str(text) in j.items { TextsInExactly(j.items, text); } }
  }

  lemma ListedExactly(j: Json, p: string)
    ensures p in PathsIn(j) <==> Listed(j, p)
  {
    forall e ensures PathIn(e) == RawPath(e) { PathIs(e); }
    hide RawPath, PathIn;
  }

  lemma SetsExactly(glob: (string, string) -> bool, files: Files, m: Dict, policy: Dict)
    ensures SetsOk(glob, files, m, policy) <==> SetsSay(glob, files, m, policy)
  {
    hide Get, AnyMatch, Selected, PathsIn, Listed, TextsOf;
    forall j, p ensures AnyMatch(glob, TextsOf(j), p) <==> Selected(glob, j, p) { SelectedExactly(glob, j, p); }
    forall j, p ensures p in PathsIn(j) <==> Listed(j, p) { ListedExactly(j, p); }
    SetIs(glob, files, Get(m, "runtimeFiles"), Get(policy, "runtimeGlobs"), Get(policy, "excludeGlobs"));
    SetIs(glob, files, Get(m, "attestedFiles"), Get(policy, "attestedGlobs"), Get(policy, "excludeGlobs"));
  }

  lemma SetIs(glob: (string, string) -> bool, files: Files, table: Json, patterns: Json, excludes: Json)
    ensures PathsIn(table) == PolicyPaths(glob, files, TextsOf(patterns), TextsOf(excludes)) <==>
              forall p :: Listed(table, p) <==> p in files && Selected(glob, patterns, p) && !Selected(glob, excludes, p) && p != "release/release-manifest.json"
  {
    hide AnyMatch, Selected, PathsIn, Listed, TextsOf;
    forall j, p ensures AnyMatch(glob, TextsOf(j), p) <==> Selected(glob, j, p) { SelectedExactly(glob, j, p); }
    forall p ensures p in PathsIn(table) <==> Listed(table, p) { ListedExactly(table, p); }
  }

  // ------------------------------------------------------------------ acceptance

  /** The two documents of a bundle. */
  ghost predicate DocumentsAre(pf: Platform, files: Files, m: Dict, policy: Dict) {
    && "release/release-manifest.json" in files && pf.parse(files["release/release-manifest.json"]) == Some(Obj(m))
    && "release/release-policy.json" in files && pf.parse(files["release/release-policy.json"]) == Some(Obj(policy))
  }

  lemma DocumentsAreRead(pf: Platform, files: Files, m: Dict, policy: Dict)
    requires policy != map[]
    ensures ManifestOf(pf, files) == Some(m) && PolicyOf(pf, files) == Some(policy) <==> DocumentsAre(pf, files, m, policy)
  {
  }

  /** Headers, rules, lists, seal, lock and environment. */
  ghost predicate FieldsSay(pf: Platform, files: Files, m: Dict, policy: Dict) {
    && HeaderSays(m) && PolicySays(policy) && ListsSay(m, policy) && SealSays(pf, m)
    && LockSays(pf, files, Get(m, "dependencyLock")) && EnvironmentSays(Get(m, "buildEnvironment"))
  }

  lemma FieldsExactly(pf: Platform, files: Files, m: Dict, policy: Dict)
    requires Faithful(pf)
    ensures FieldsSay(pf, files, m, policy) <==>
              && ManifestHeaderOk(m) && PolicyHeaderOk(m, policy) && PolicyListsOk(policy) && ManifestListsOk(m, policy) && SealOk(pf, m)
              && LockOk(pf, files, Get(m, "dependencyLock")) && EnvironmentOk(Get(m, "buildEnvironment"))
  {
    hide Faithful, HeaderSays, PolicySays, ListsSay, SealSays, LockSays, EnvironmentSays, ManifestHeaderOk, PolicyHeaderOk, PolicyListsOk, ManifestListsOk,
         SealOk, LockOk, EnvironmentOk, Get;
    HeaderExactly(m);
    if HeaderSays(m) { PolicyExactly(m, policy); }
    ListsExactly(m, policy);
    SealExactly(pf, m);
    LockExactly(pf, files, Get(m, "dependencyLock"));
    EnvironmentExactly(Get(m, "buildEnvironment"));
  }

  /** Exactly the bundles that the verifier accepts. */
  lemma AcceptsExactly(pf: Platform, glob: (string, string) -> bool, files: Files, m: Dict, policy: Dict)
    requires Faithful(pf)
    ensures Accepts(pf, glob, files, m, policy) <==>
              && DocumentsAre(pf, files, m, policy) && FieldsSay(pf, files, m, policy) && TablesSay(pf, files, m)
              && RunSays(pf, ItemsOrEmpty(Get(m, "testEvidenceFiles")), Get(m, "testRunHash"))
              && EvidenceSays(pf, files, ItemsOrEmpty(Get(m, "attestedFiles")), ItemsOrEmpty(Get(m, "testEvidenceFiles")),
                              Get(m, "sourceCommit"), Get(DictOf(Get(m, "buildEnvironment")), "pipFreezeHash"))
              && (forall name | Lists(Get(m, "forbiddenPaths"), name) :: Gone(files.Keys, name))
              && SetsSay(glob, files, m, policy)
  {
    hide Faithful, Get, ManifestOf, PolicyOf, ManifestHeaderOk, PolicyHeaderOk, PolicyListsOk, ManifestListsOk, SealOk, LockOk, EnvironmentOk, TablesOk,
         TestRunOk, EvidenceOk, AllAbsent, SetsOk, DocumentsAre, FieldsSay, TablesSay, RunSays, EvidenceSays, Lists, Gone, SetsSay;
    FieldsExactly(pf, files, m, policy);
    TablesExactly(pf, files, m);
    SetsExactly(glob, files, m, policy);
    ForbiddenExactly(files.Keys, Get(m, "forbiddenPaths"));
    if FieldsSay(pf, files, m, policy) {
      FieldsGive(pf, files, m, policy);
      DocumentsAreRead(pf, files, m, policy);
      if TablesSay(pf, files, m) {
        EvidenceExactly(pf, files, m);
        TablesGive(pf, files, m);
        RunExactly(pf, files, Get(m, "testEvidenceFiles"), Get(m, "testRunHash"));
      }
    }
  }

  lemma ForbiddenExactly(files: set<string>, j: Json)
    ensures AllAbsent(files, TextsOf(j)) <==> forall name | Lists(j, name) :: Gone(files, name)
  {
    hide Absent, Gone, TextsIn;
    if j.Arr? { forall text ensures text in TextsIn(j.items) <==> text != "" && Str(text) in j.items { TextsInExactly(j.items, text); } }
    forall raw ensures Absent(files, raw) <==> Gone(files, raw) { PresentExactly(files, raw); }
  }

  lemma FieldsGive(pf: Platform, files: Files, m: Dict, policy: Dict)
    requires FieldsSay(pf, files, m, policy)
    ensures policy != map[] && EnvironmentSays(Get(m, "buildEnvironment")) && Get(m, "sourceCommit").Str? && HexText(Get(m, "sourceCommit").s, 40)
  {
    hide HeaderSays, ListsSay, ContractSays, LockSays, EnvironmentSays, HexText, RulesSay;
    assert "rules" in policy.Keys;
  }
}
