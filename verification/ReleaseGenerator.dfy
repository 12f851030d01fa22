/** scripts/generate_release_manifest.py: from a policy, a source tree and a directory of test evidence
    to a sealed manifest and a staging bundle. */
module ReleaseGenerator {
  import opened Sorting
  import opened TextOrder
  import opened Json
  import opened Platform
  import opened Wrappers
  import opened PosixPath
  import opened ReleaseVerifier

  /** What the runtime interpreter and the dependency checker report, and the freeze file they write. */
  datatype Probe = Probe(version: string, freezeHash: string, freeze: Bytes, locked: Json, installed: Json,
                         executable: Json, prefix: Json, basePrefix: Json)

  // ------------------------------------------------------------------ selecting files

  function Selected(glob: (string, string) -> bool, root: Files, patterns: seq<string>, excludes: seq<string>): set<string> {
    set p | p in root && AnyMatch(glob, patterns, p) && !AnyMatch(glob, excludes, p)
  }

  /** `expand`. */
  method Expand(glob: (string, string) -> bool, root: Files, patterns: seq<string>, excludes: seq<string>) returns (paths: seq<string>)
    ensures paths == SortText(Selected(glob, root, patterns, excludes))
  {
    var found: set<string> := {};
    for k := 0 to |patterns|
      invariant found == set p | p in root && AnyMatch(glob, patterns[..k], p)
    {
      AnyMatchStep(glob, patterns, k);
      found := found + set p | p in root && glob(patterns[k], p);
    }
    assert patterns[..|patterns|] == patterns;
    var excluded: set<string> := {};
    for k := 0 to |excludes|
      invariant excluded == set p | p in root && AnyMatch(glob, excludes[..k], p)
    {
      AnyMatchStep(glob, excludes, k);
      excluded := excluded + set p | p in root && glob(excludes[k], p);
    }
    assert excludes[..|excludes|] == excludes;
    assert found - excluded == Selected(glob, root, patterns, excludes);
    paths := SortText(found - excluded);
  }

  function DataOf(files: Files, p: string): Bytes {
    if p in files then files[p] else []
  }

  function EntryFor(pf: Platform, path: string, data: Bytes): Json {
    Obj(map["path" := Str(path), "sha256" := Str(pf.hex(data)), "size" := Num(|data|)])
  }

  /** `file_entries`. */
  function EntriesFor(pf: Platform, root: Files, paths: seq<string>): seq<Json> {
    seq(|paths|, k requires 0 <= k < |paths| => EntryFor(pf, paths[k], DataOf(root, paths[k])))
  }

  /** `expected_attested_digest` of the generator. */
  function SourceDigest(pf: Platform, root: Files, paths: seq<string>): string {
    if paths == [] then "" else
      var p := paths[|paths| - 1];
      SourceDigest(pf, root, paths[..|paths| - 1]) + (pf.hex(DataOf(root, p)) + "  " + p + "\n")
  }

  // ------------------------------------------------------------------ evidence

  function Slashless(p: string): string {
    seq(|p|, k requires 0 <= k < |p| => if p[k] == '/' then '\0' else p[k])
  }

  /** `sorted` on paths: component by component, which is text order with the slash before all else. */
  function SortPaths(paths: set<string>): seq<string> {
    SortBy(SortText(paths), Slashless)
  }

  /** `sealed_evidence_entries`. */
  function EvidenceEntries(pf: Platform, evidence: Files): seq<Json> {
    var names := SortPaths(evidence.Keys);
    seq(|names|, k requires 0 <= k < |names| => EntryFor(pf, EVIDENCE_ROOT + names[k], DataOf(evidence, names[k])))
  }

  function PythonRuntime(probe: Probe): Dict {
    map["lockedPackageCount" := probe.locked, "installedPackageCount" := probe.installed, "runtimeExecutable" := probe.executable,
        "runtimePrefix" := probe.prefix, "runtimeBasePrefix" := probe.basePrefix] +
    map["schema" := Str("release.python-runtime.v1"), "pythonVersion" := Str(probe.version), "pipFreezeHash" := Str(probe.freezeHash),
        "dependencyLockVerified" := Bool(true), "strictExtras" := Bool(true), "isolatedRuntime" := Bool(true)]
  }

  /** The evidence directory after `runtime_environment_identity`. */
  function SealedEvidence(pf: Platform, evidence: Files, probe: Probe): Files {
    evidence["pip-freeze.txt" := probe.freeze]["python-runtime.json" := pf.render(Obj(PythonRuntime(probe)))]
  }

  /** `require_evidence_floor`. */
  predicate FloorMet(evidence: Files) {
    forall name | name in REQUIRED_EVIDENCE_PATHS :: name in evidence && |evidence[name]| > 0
  }

  function Loaded(pf: Platform, evidence: Files, name: string): Option<Dict> {
    if name !in evidence then None else
      match pf.parse(evidence[name])
      case Some(Obj(fields)) => Some(fields)
      case _ => None
  }

  predicate EmptyOrNull(j: Json) {
    j == Arr([]) || j == Null
  }

  /** The generator lets a missing or null list pass as an empty one. */
  predicate ProductionLoose(d: Dict, version: string, freeze: string) {
    && ProductionBound(d, version, freeze)
    && EmptyOrNull(Get(d, "missing")) && EmptyOrNull(Get(d, "mismatched")) && EmptyOrNull(Get(d, "extras"))
  }

  predicate EvidenceBinds(pf: Platform, evidence: Files, commit: string, version: string, freeze: string, digest: string) {
    && Loaded(pf, evidence, "test-attestation.json").Some?
    && AttestationOk(pf, Loaded(pf, evidence, "test-attestation.json").value, commit, version)
    && Loaded(pf, evidence, "production-runtime-verification.json").Some?
    && ProductionLoose(Loaded(pf, evidence, "production-runtime-verification.json").value, version, freeze)
    && Loaded(pf, evidence, "python-runtime.json").Some?
    && PythonOk(Loaded(pf, evidence, "python-runtime.json").value, version, freeze)
    && Sha(pf, DataOf(evidence, "pip-freeze.txt")) == freeze
    && pf.readText(DataOf(evidence, "attested-files.sha256")) == digest
  }

  /** One entry of the list of errors: a field of a document that is not as expected. */
  datatype Mismatch = Mismatch(document: string, field: string)

  const ATTESTATION := "test_attestation"
  const PRODUCTION := "production_runtime"
  const PYTHON := "python_runtime"

  /** The fields of a document that differ from what is expected of them, in order. */
  function FieldErrors(document: string, d: Dict, expected: seq<(string, Json)>): seq<Mismatch> {
    if expected == [] then [] else
      var last := expected[|expected| - 1];
      FieldErrors(document, d, expected[..|expected| - 1]) + if Get(d, last.0) == last.1 then [] else [Mismatch(document, last.0)]
  }

  method CheckFields(document: string, d: Dict, expected: seq<(string, Json)>) returns (errors: seq<Mismatch>)
    ensures errors == FieldErrors(document, d, expected)
  {
    errors := [];
    for k := 0 to |expected|
      invariant errors == FieldErrors(document, d, expected[..k])
    {
      assert expected[..k + 1][..k] == expected[..k];
      if Get(d, expected[k].0) != expected[k].1 { errors := errors + [Mismatch(document, expected[k].0)]; }
    }
    assert expected[..|expected|] == expected;
  }

  /** A field is reported exactly when it is not as expected. */
  lemma {:induction false} FieldErrorsExactly(document: string, d: Dict, expected: seq<(string, Json)>)
    ensures forall m :: m in FieldErrors(document, d, expected) <==>
              m.document == document && exists k :: 0 <= k < |expected| && expected[k].0 == m.field && Get(d, m.field) != expected[k].1
    ensures FieldErrors(document, d, expected) == [] <==> forall k | 0 <= k < |expected| :: Get(d, expected[k].0) == expected[k].1
  {
    hide Get;
    if expected != [] {
      var n := |expected| - 1;
      FieldErrorsExactly(document, d, expected[..n]);
      forall m ensures m in FieldErrors(document, d, expected) <==>
          m.document == document && exists k :: 0 <= k < |expected| && expected[k].0 == m.field && Get(d, m.field) != expected[k].1 {
        if m in FieldErrors(document, d, expected[..n]) {
          var k :| 0 <= k < n && expected[..n][k].0 == m.field && Get(d, m.field) != expected[..n][k].1;
          assert expected[k] == expected[..n][k];
        }
        if k :| m.document == document && 0 <= k < |expected| && expected[k].0 == m.field && Get(d, m.field) != expected[k].1 {
          if k < n { assert expected[..n][k] == expected[k]; }
        }
      }
    }
  }

  function FlagFields(): seq<(string, Json)> {
    var flags := REQUIRED_TEST_ATTESTATION_FLAGS;
    seq(|flags|, k requires 0 <= k < |flags| => (flags[k], Bool(flags[k] != "staticCheckerImportedRuntime")))
  }

  function AttestationErrors(pf: Platform, d: Dict, commit: string, version: string): seq<Mismatch> {
    FieldErrors(ATTESTATION, d, [("schema", Str("release.test-attestation.v1")), ("sourceCommit", Str(commit)),
                                 ("grayPythonVersion", Str(version)), ("productionPythonVersion", Str(version))]) +
    (if ListsRequired(pf, Get(d, "requiredEvidenceFiles")) then [] else [Mismatch(ATTESTATION, "requiredEvidenceFiles")]) +
    FieldErrors(ATTESTATION, d, FlagFields())
  }

  function ListErrors(d: Dict, fields: seq<string>): seq<Mismatch> {
    if fields == [] then [] else
      var last := fields[|fields| - 1];
      ListErrors(d, fields[..|fields| - 1]) + if EmptyOrNull(Get(d, last)) then [] else [Mismatch(PRODUCTION, last)]
  }

  const PACKAGE_LISTS := ["missing", "mismatched", "extras"]

  function ProductionErrors(d: Dict, version: string, freeze: string): seq<Mismatch> {
    FieldErrors(PRODUCTION, d, [("schema", Str("dependency.lock.verification.v1")), ("verified", Bool(true)), ("strictExtras", Bool(true)),
                                ("pythonVersion", Str(version)), ("pipFreezeHash", Str(freeze))]) +
    ListErrors(d, PACKAGE_LISTS)
  }

  function PythonErrors(d: Dict, version: string, freeze: string): seq<Mismatch> {
    FieldErrors(PYTHON, d, [("schema", Str("release.python-runtime.v1")), ("pythonVersion", Str(version)), ("pipFreezeHash", Str(freeze)),
                            ("dependencyLockVerified", Bool(true)), ("strictExtras", Bool(true)), ("isolatedRuntime", Bool(true))])
  }

  /** The list of errors; None where a document cannot be read, or its list of files is not a list. */
  function EvidenceErrors(pf: Platform, evidence: Files, commit: string, version: string, freeze: string, digest: string): Option<seq<Mismatch>> {
    var attestation := Loaded(pf, evidence, "test-attestation.json");
    var production := Loaded(pf, evidence, "production-runtime-verification.json");
    var python := Loaded(pf, evidence, "python-runtime.json");
    if attestation.None? || Listing(pf, Get(attestation.value, "requiredEvidenceFiles")).None? || production.None? || python.None? then None
    else Some(
      AttestationErrors(pf, attestation.value, commit, version) + ProductionErrors(production.value, version, freeze) +
      PythonErrors(python.value, version, freeze) +
      (if Sha(pf, DataOf(evidence, "pip-freeze.txt")) == freeze then [] else [Mismatch("pip_freeze", "hash")]) +
      (if pf.readText(DataOf(evidence, "attested-files.sha256")) == digest then [] else [Mismatch("attested_source", "digest")]))
  }

  method CheckAttestationFields(pf: Platform, d: Dict, commit: string, version: string) returns (errors: seq<Mismatch>)
    ensures errors == AttestationErrors(pf, d, commit, version)
  {
    hide FieldErrors, ListsRequired, FlagFields;
    errors := CheckFields(ATTESTATION, d, [("schema", Str("release.test-attestation.v1")), ("sourceCommit", Str(commit)),
                                           ("grayPythonVersion", Str(version)), ("productionPythonVersion", Str(version))]);
    if !ListsRequired(pf, Get(d, "requiredEvidenceFiles")) { errors := errors + [Mismatch(ATTESTATION, "requiredEvidenceFiles")]; }
    var flags := CheckFields(ATTESTATION, d, FlagFields());
    errors := errors + flags;
  }

  method CheckProductionFields(d: Dict, version: string, freeze: string) returns (errors: seq<Mismatch>)
    ensures errors == ProductionErrors(d, version, freeze)
  {
    hide FieldErrors, EmptyOrNull;
    errors := CheckFields(PRODUCTION, d, [("schema", Str("dependency.lock.verification.v1")), ("verified", Bool(true)), ("strictExtras", Bool(true)),
                                          ("pythonVersion", Str(version)), ("pipFreezeHash", Str(freeze))]);
    ghost var before := errors;
    var fields := PACKAGE_LISTS;
    for k := 0 to |fields|
      invariant errors == before + ListErrors(d, fields[..k])
    {
      assert fields[..k + 1][..k] == fields[..k];
      if !EmptyOrNull(Get(d, fields[k])) { errors := errors + [Mismatch(PRODUCTION, fields[k])]; }
    }
    assert fields[..|fields|] == fields;
  }

  /** `validate_evidence_semantics`: the list of all mismatches, in order. */
  method ValidateEvidenceSemantics(pf: Platform, evidence: Files, commit: string, version: string, freeze: string, digest: string)
    returns (r: Option<seq<Mismatch>>)
    ensures r == EvidenceErrors(pf, evidence, commit, version, freeze, digest)
  {
    hide AttestationErrors, ProductionErrors, FieldErrors, Loaded, Sha, Listing;
    var attestation := Loaded(pf, evidence, "test-attestation.json");
    if attestation.None? || Listing(pf, Get(attestation.value, "requiredEvidenceFiles")).None? { return None; }
    var errors := CheckAttestationFields(pf, attestation.value, commit, version);
    var production := Loaded(pf, evidence, "production-runtime-verification.json");
    if production.None? { return None; }
    var more := CheckProductionFields(production.value, version, freeze);
    errors := errors + more;
    var python := Loaded(pf, evidence, "python-runtime.json");
    if python.None? { return None; }
    more := CheckFields(PYTHON, python.value,
                        [("schema", Str("release.python-runtime.v1")), ("pythonVersion", Str(version)), ("pipFreezeHash", Str(freeze)),
                         ("dependencyLockVerified", Bool(true)), ("strictExtras", Bool(true)), ("isolatedRuntime", Bool(true))]);
    errors := errors + more;
    assert errors + [] == errors;
    if Sha(pf, DataOf(evidence, "pip-freeze.txt")) != freeze { errors := errors + [Mismatch("pip_freeze", "hash")]; }
    assert errors + [] == errors;
    if pf.readText(DataOf(evidence, "attested-files.sha256")) != digest { errors := errors + [Mismatch("attested_source", "digest")]; }
    r := Some(errors);
  }

  lemma NoAttestationErrors(pf: Platform, d: Dict, commit: string, version: string)
    ensures AttestationErrors(pf, d, commit, version) == [] <==> AttestationOk(pf, d, commit, version)
  {
    hide FieldErrors, ListsRequired, Get, REQUIRED_TEST_ATTESTATION_FLAGS;
    var expected := [("schema", Str("release.test-attestation.v1")), ("sourceCommit", Str(commit)),
                     ("grayPythonVersion", Str(version)), ("productionPythonVersion", Str(version))];
    FieldErrorsExactly(ATTESTATION, d, expected);
    FieldErrorsExactly(ATTESTATION, d, FlagFields());
    assert expected[0].0 == "schema" && expected[1].0 == "sourceCommit" && expected[2].0 == "grayPythonVersion" && expected[3].0 == "productionPythonVersion";
    FlagFieldsAre(d);
  }

  lemma FlagFieldsAre(d: Dict)
    ensures (forall k | 0 <= k < |FlagFields()| :: Get(d, FlagFields()[k].0) == FlagFields()[k].1)
       <==> forall flag | flag in REQUIRED_TEST_ATTESTATION_FLAGS :: FlagOk(d, flag)
  {
    hide Get, REQUIRED_TEST_ATTESTATION_FLAGS;
    var flags := REQUIRED_TEST_ATTESTATION_FLAGS;
    if forall k | 0 <= k < |FlagFields()| :: Get(d, FlagFields()[k].0) == FlagFields()[k].1 {
      forall flag | flag in flags ensures FlagOk(d, flag) {
        var k :| 0 <= k < |flags| && flags[k] == flag;
        assert FlagFields()[k].0 == flag;
      }
    }
    if forall flag | flag in flags :: FlagOk(d, flag) {
      forall k | 0 <= k < |FlagFields()| ensures Get(d, FlagFields()[k].0) == FlagFields()[k].1 { assert flags[k] in flags && FlagOk(d, flags[k]); }
    }
  }

  lemma {:induction false} ListErrorsExactly(d: Dict, fields: seq<string>)
    ensures ListErrors(d, fields) == [] <==> forall f | f in fields :: EmptyOrNull(Get(d, f))
  {
    hide EmptyOrNull, Get;
    if fields != [] {
      var n := |fields| - 1;
      ListErrorsExactly(d, fields[..n]);
      assert forall f :: f in fields <==> f in fields[..n] || f == fields[n];
    }
  }

  lemma NoProductionErrors(d: Dict, version: string, freeze: string)
    ensures ProductionErrors(d, version, freeze) == [] <==> ProductionLoose(d, version, freeze)
  {
    hide FieldErrors, Get, EmptyOrNull, ListErrors;
    var expected := [("schema", Str("dependency.lock.verification.v1")), ("verified", Bool(true)), ("strictExtras", Bool(true)),
                     ("pythonVersion", Str(version)), ("pipFreezeHash", Str(freeze))];
    FieldErrorsExactly(PRODUCTION, d, expected);
    ListErrorsExactly(d, PACKAGE_LISTS);
    assert expected[0].0 == "schema" && expected[1].0 == "verified" && expected[2].0 == "strictExtras" && expected[3].0 == "pythonVersion" &&
           expected[4].0 == "pipFreezeHash";
    assert "missing" in PACKAGE_LISTS && "mismatched" in PACKAGE_LISTS && "extras" in PACKAGE_LISTS;
  }

  lemma NoPythonErrors(d: Dict, version: string, freeze: string)
    ensures PythonErrors(d, version, freeze) == [] <==> PythonOk(d, version, freeze)
  {
    hide FieldErrors, Get;
    var expected := [("schema", Str("release.python-runtime.v1")), ("pythonVersion", Str(version)), ("pipFreezeHash", Str(freeze)),
                     ("dependencyLockVerified", Bool(true)), ("strictExtras", Bool(true)), ("isolatedRuntime", Bool(true))];
    FieldErrorsExactly(PYTHON, d, expected);
    assert expected[0].0 == "schema" && expected[1].0 == "pythonVersion" && expected[2].0 == "pipFreezeHash" &&
           expected[3].0 == "dependencyLockVerified" && expected[4].0 == "strictExtras" && expected[5].0 == "isolatedRuntime";
  }

  lemma AllEmpty(a: seq<Mismatch>, b: seq<Mismatch>, c: seq<Mismatch>, d: seq<Mismatch>, e: seq<Mismatch>)
    ensures a + b + c + d + e == [] <==> a == [] && b == [] && c == [] && d == [] && e == []
  {
    assert |a + b + c + d + e| == |a| + |b| + |c| + |d| + |e|;
  }

  /** There is nothing to report exactly when the evidence binds to commit, version, freeze hash and digest. */
  lemma NoErrorsExactly(pf: Platform, evidence: Files, commit: string, version: string, freeze: string, digest: string)
    ensures EvidenceErrors(pf, evidence, commit, version, freeze, digest) == Some([]) <==> EvidenceBinds(pf, evidence, commit, version, freeze, digest)
  {
    hide AttestationErrors, ProductionErrors, PythonErrors, AttestationOk, ProductionLoose, PythonOk, Loaded, Sha, Listing, DataOf;
    var attestation := Loaded(pf, evidence, "test-attestation.json");
    var production := Loaded(pf, evidence, "production-runtime-verification.json");
    var python := Loaded(pf, evidence, "python-runtime.json");
    if attestation.Some? { AttestationIsListed(pf, attestation.value, commit, version); }
    if attestation.Some? && production.Some? && python.Some? {
      NoAttestationErrors(pf, attestation.value, commit, version);
      NoProductionErrors(production.value, version, freeze);
      NoPythonErrors(python.value, version, freeze);
      AllEmpty(AttestationErrors(pf, attestation.value, commit, version), ProductionErrors(production.value, version, freeze),
               PythonErrors(python.value, version, freeze),
               if Sha(pf, DataOf(evidence, "pip-freeze.txt")) == freeze then [] else [Mismatch("pip_freeze", "hash")],
               if pf.readText(DataOf(evidence, "attested-files.sha256")) == digest then [] else [Mismatch("attested_source", "digest")]);
    }
  }

  lemma AttestationIsListed(pf: Platform, d: Dict, commit: string, version: string)
    ensures AttestationOk(pf, d, commit, version) ==> Listing(pf, Get(d, "requiredEvidenceFiles")).Some?
  {
    hide Listing, FlagOk, REQUIRED_TEST_ATTESTATION_FLAGS, REQUIRED_EVIDENCE_PATHS;
  }

  // ------------------------------------------------------------------ the plan

  datatype Plan = Plan(policy: Dict, runtime: seq<string>, attested: seq<string>, evidence: Files)

  predicate IsDigits(s: string) {
    s != "" && forall c | c in s :: '0' <= c <= '9'
  }

  /** `3\.11\.[0-9]+`. */
  predicate IsPatchOf311(s: string) {
    "3.11." <= s && IsDigits(s[5..])
  }

  function PolicyIn(pf: Platform, root: Files): Option<Dict> {
    if POLICY_PATH !in root then None else
      match pf.parse(root[POLICY_PATH])
      case Some(Obj(fields)) => Some(fields)
      case _ => None
  }

  /** The environment may be released: isolated, of the declared version, with a well-formed hash. */
  predicate ProbeOk(probe: Probe, version: string) {
    probe.prefix != probe.basePrefix && probe.version == version && IsPrefixedSha(Str(probe.freezeHash))
  }

  /** The lists of the policy that the generator iterates over. */
  predicate Iterable(pf: Platform, policy: Dict) {
    && Listing(pf, Get(policy, "runtimeGlobs")).Some? && Listing(pf, Get(policy, "attestedGlobs")).Some?
    && Listing(pf, Get(policy, "excludeGlobs")).Some? && Listing(pf, Get(policy, "forbiddenPaths")).Some?
    && Listing(pf, Get(policy, "allowedEntrypoints")).Some?
  }

  function RuntimeSelection(pf: Platform, glob: (string, string) -> bool, root: Files, policy: Dict): set<string>
    requires Iterable(pf, policy)
  {
    Selected(glob, root, Listing(pf, Get(policy, "runtimeGlobs")).value, Listing(pf, Get(policy, "excludeGlobs")).value) - {MANIFEST_PATH}
  }

  function AttestedSelection(pf: Platform, glob: (string, string) -> bool, root: Files, policy: Dict): set<string>
    requires Iterable(pf, policy)
  {
    Selected(glob, root, Listing(pf, Get(policy, "attestedGlobs")).value, Listing(pf, Get(policy, "excludeGlobs")).value)
  }

  function VersionOf(pf: Platform, policy: Dict): string {
    StrOrEmpty(pf, Get(policy, "releasePythonVersion"))
  }

  function PlanFor(pf: Platform, glob: (string, string) -> bool, root: Files, evidence: Files, probe: Probe, policy: Dict): Plan
    requires Iterable(pf, policy)
  {
    Plan(policy, SortText(RuntimeSelection(pf, glob, root, policy)), SortText(AttestedSelection(pf, glob, root, policy)),
         SealedEvidence(pf, evidence, probe))
  }

  predicate PlanOk(pf: Platform, root: Files, commit: string, probe: Probe, plan: Plan) {
    && FloorMet(plan.evidence) && plan.runtime != [] && plan.attested != []
    && EvidenceBinds(pf, plan.evidence, commit, probe.version, probe.freezeHash, SourceDigest(pf, root, plan.attested))
  }

  /** Everything `main` decides before it assembles the manifest. */
  function Planned(pf: Platform, glob: (string, string) -> bool, root: Files, commit: string, evidence: Files, probe: Option<Probe>): Result<Plan> {
    var policy := PolicyIn(pf, root);
    if !IsCommit(Str(commit)) || policy.None? || !IsPatchOf311(VersionOf(pf, policy.value)) || LOCK_PATH !in root then Err
    else if probe.None? || !ProbeOk(probe.value, VersionOf(pf, policy.value)) || !Iterable(pf, policy.value) then Err
    else
      var plan := PlanFor(pf, glob, root, evidence, probe.value, policy.value);
      if PlanOk(pf, root, commit, probe.value, plan) then Ok(plan) else Err
  }

  // ------------------------------------------------------------------ the manifest

  function SortTexts(texts: seq<string>): seq<string> {
    SortBy(texts, (s: string) => s)
  }

  function ListedTexts(pf: Platform, j: Json): Json {
    if Listing(pf, j).Some? then Texts(SortTexts(Listing(pf, j).value)) else Arr([])
  }

  function HeadFields(pf: Platform, policy: Dict, commit: string): Dict {
    map["schema" := Str(SCHEMA), "productVersion" := Str(StrOrEmpty(pf, Get(policy, "productVersion"))),
        "runtimeMode" := Str(if Truthy(Get(policy, "runtimeMode")) then pf.str(Get(policy, "runtimeMode")) else MODE),
        "sourceCommit" := Str(commit)]
  }

  function TableFields(pf: Platform, root: Files, plan: Plan): Dict {
    map["runtimeFiles" := Arr(EntriesFor(pf, root, plan.runtime)), "attestedFiles" := Arr(EntriesFor(pf, root, plan.attested)),
        "testEvidenceFiles" := Arr(EvidenceEntries(pf, plan.evidence)),
        "forbiddenPaths" := ListedTexts(pf, Get(plan.policy, "forbiddenPaths")),
        "allowedEntrypoints" := ListedTexts(pf, Get(plan.policy, "allowedEntrypoints"))]
  }

  function BindingFields(pf: Platform, root: Files, plan: Plan, probe: Probe): Dict {
    map["dependencyLock" := Obj(map["path" := Str(LOCK_PATH), "sha256" := Str(pf.hex(DataOf(root, LOCK_PATH))), "format" := Str("pip-exact-pins-v1")]),
        "buildEnvironment" := Obj(map["pythonVersion" := Str(probe.version), "pipFreezeHash" := Str(probe.freezeHash)]),
        "testRunHash" := Str(RunHash(pf, EvidenceEntries(pf, plan.evidence))),
        "verificationContract" := Obj(EXPECTED_VERIFICATION_CONTRACT)]
  }

  /** `test_run_hash` on entries the generator wrote itself. */
  function RunHash(pf: Platform, entries: seq<Json>): string {
    var h := TestRunHash(pf, Arr(entries));
    if h.Some? then h.value else ""
  }

  function Material(pf: Platform, root: Files, plan: Plan, probe: Probe, commit: string): Dict {
    HeadFields(pf, plan.policy, commit) + TableFields(pf, root, plan) + BindingFields(pf, root, plan, probe)
  }

  function SealManifest(pf: Platform, material: Dict): Dict {
    material + map["manifestHash" := Str(Sha(pf, pf.canon(Obj(material)))), "releaseHash" := Str(RootHash(pf, pf.canon(Obj(material))))]
  }

  // ------------------------------------------------------------------ staging

  function EvidenceKeys(evidence: Files): set<string> {
    set name | name in evidence :: EVIDENCE_ROOT + name
  }

  /** The staging directory: sources from the tree, evidence below the attestation directory, the
      manifest over everything. */
  ghost predicate IsStaging(root: Files, sources: set<string>, evidence: Files, manifest: Bytes, staging: Files) {
    && staging.Keys == sources + EvidenceKeys(evidence) + {MANIFEST_PATH}
    && staging[MANIFEST_PATH] == manifest
    && (forall name | name in evidence :: staging[EVIDENCE_ROOT + name] == evidence[name])
    && (forall p | p in sources && p != MANIFEST_PATH :: p in root && staging[p] == root[p])
  }

  predicate Obstructed(paths: set<string>, path: string) {
    exists q | q in paths :: Above(q, path) || Above(path, q)
  }

  lemma CoexistGrows(paths: set<string>, p: string)
    requires Coexist(paths) && !Obstructed(paths, p)
    ensures Coexist(paths + {p})
  {
    hide Above;
    assert !Above(p, p) by { NotAboveItself(p); }
  }

  lemma ObstructedMeansClash(paths: set<string>, all: set<string>, p: string)
    requires Obstructed(paths, p) && paths <= all && p in all
    ensures !Coexist(all)
  {
    hide Above;
    var q :| q in paths && (Above(q, p) || Above(p, q));
    assert q in all;
  }

  function KeysOf(names: seq<string>): set<string> {
    set name | name in names :: EVIDENCE_ROOT + name
  }

  lemma EvidenceIsNotManifest(name: string)
    ensures EVIDENCE_ROOT + name != MANIFEST_PATH
    ensures forall other :: EVIDENCE_ROOT + name == EVIDENCE_ROOT + other ==> name == other
  {
    assert (EVIDENCE_ROOT + name)[8] == 'a' && MANIFEST_PATH[8] == 'r';
    forall other | EVIDENCE_ROOT + name == EVIDENCE_ROOT + other ensures name == other {
      assert name == (EVIDENCE_ROOT + name)[|EVIDENCE_ROOT|..] && other == (EVIDENCE_ROOT + other)[|EVIDENCE_ROOT|..];
    }
  }

  ghost predicate Fits(sources: set<string>, keys: set<string>) {
    sources !! keys && Coexist(sources + keys + {MANIFEST_PATH})
  }

  /** The first loop of `copy_staging`, over runtime and attested files; a path listed twice is copied once. */
  method CopySources(root: Files, sources: seq<string>) returns (r: Result<Files>)
    requires forall p | p in sources :: p in root
    ensures r.Ok? <==> Coexist(Elements(sources))
    ensures r.Ok? ==> r.value == map p | p in Elements(sources) :: root[p]
  {
    hide Coexist, Obstructed;
    var staging: Files := map[];
    NothingToCopy();
    for k := 0 to |sources|
      invariant Coexist(Elements(sources[..k]))
      invariant forall p | p in Elements(sources[..k]) :: p in root
      invariant staging == map p | p in Elements(sources[..k]) :: root[p]
    {
      var p := sources[k];
      assert sources[..k + 1] == sources[..k] + [p];
      assert Elements(sources[..k + 1]) == Elements(sources[..k]) + {p};
      if p !in staging {
        if Obstructed(staging.Keys, p) {
          assert Elements(sources[..k]) <= Elements(sources);
          ObstructedMeansClash(staging.Keys, Elements(sources), p);
          return Err;
        }
        assert staging.Keys == Elements(sources[..k]);
        CoexistGrows(staging.Keys, p);
        staging := staging[p := root[p]];
      } else {
        assert Elements(sources[..k + 1]) == Elements(sources[..k]);
      }
    }
    assert sources[..|sources|] == sources;
    r := Ok(staging);
  }

  lemma NothingToCopy()
    ensures Coexist(Elements([]))
  {
  }

  lemma KeysStep(names: seq<string>, k: nat)
    requires k < |names|
    ensures KeysOf(names[..k + 1]) == KeysOf(names[..k]) + {EVIDENCE_ROOT + names[k]}
    ensures KeysOf(names[..k]) <= KeysOf(names) && EVIDENCE_ROOT + names[k] in KeysOf(names)
    ensures (forall i | 0 <= i < k :: names[i] != names[k]) ==> EVIDENCE_ROOT + names[k] !in KeysOf(names[..k])
  {
    assert names[..k + 1] == names[..k] + [names[k]];
    EvidenceIsNotManifest(names[k]);
  }

  /** The second loop and the manifest. */
  method CopyEvidence(before: Files, evidence: Files, names: seq<string>, manifest: Bytes) returns (r: Result<Files>)
    requires Coexist(before.Keys) && Elements(names) == evidence.Keys && forall i, j | 0 <= i < j < |names| :: names[i] != names[j]
    ensures r.Ok? <==> Fits(before.Keys, KeysOf(names))
    ensures r.Ok? ==> IsStaging(before, before.Keys, evidence, manifest, r.value)
  {
    hide Coexist, Obstructed, KeysOf, EVIDENCE_ROOT, MANIFEST_PATH;
    var staging := before;
    KeysOfNothing(names);
    ghost var all := before.Keys + KeysOf(names) + {MANIFEST_PATH};
    for k := 0 to |names|
      invariant before.Keys !! KeysOf(names[..k]) && staging.Keys == before.Keys + KeysOf(names[..k])
      invariant Coexist(staging.Keys)
      invariant forall p | p in before :: staging[p] == before[p]
      invariant forall i | 0 <= i < k :: EVIDENCE_ROOT + names[i] in staging && names[i] in evidence && staging[EVIDENCE_ROOT + names[i]] == evidence[names[i]]
    {
      var key := EVIDENCE_ROOT + names[k];
      KeysStep(names, k);
      if key in staging { return Err; }
      if Obstructed(staging.Keys, key) {
        ObstructedMeansClash(staging.Keys, all, key);
        return Err;
      }
      CoexistGrows(staging.Keys, key);
      assert names[k] in Elements(names);
      assert staging[key := evidence[names[k]]].Keys == staging.Keys + {key};
      staging := staging[key := evidence[names[k]]];
    }
    assert names[..|names|] == names;
    if Obstructed(staging.Keys, MANIFEST_PATH) {
      ObstructedMeansClash(staging.Keys, all, MANIFEST_PATH);
      return Err;
    }
    CoexistGrows(staging.Keys, MANIFEST_PATH);
    r := Ok(staging[MANIFEST_PATH := manifest]);
    StagingIsComplete(before, evidence, names, manifest, staging);
  }

  lemma KeysOfNothing(names: seq<string>)
    ensures KeysOf(names[..0]) == {}
  {
  }

  lemma StagingIsComplete(before: Files, evidence: Files, names: seq<string>, manifest: Bytes, staging: Files)
    requires Elements(names) == evidence.Keys && staging.Keys == before.Keys + KeysOf(names)
    requires forall p | p in before :: staging[p] == before[p]
    requires forall i | 0 <= i < |names| :: EVIDENCE_ROOT + names[i] in staging && names[i] in evidence && staging[EVIDENCE_ROOT + names[i]] == evidence[names[i]]
    ensures IsStaging(before, before.Keys, evidence, manifest, staging[MANIFEST_PATH := manifest])
  {
    hide EVIDENCE_ROOT, MANIFEST_PATH;
    assert forall name :: name in names <==> name in evidence by {
      forall name ensures name in names <==> name in evidence { assert name in Elements(names) <==> name in names; }
    }
    assert KeysOf(names) == EvidenceKeys(evidence);
    forall name | name in evidence ensures staging[MANIFEST_PATH := manifest][EVIDENCE_ROOT + name] == evidence[name] {
      var i :| 0 <= i < |names| && names[i] == name;
      EvidenceIsNotManifest(name);
    }
  }

  /** `copy_staging`. */
  method CopyStaging(root: Files, sources: seq<string>, evidence: Files, names: seq<string>, manifest: Bytes) returns (r: Result<Files>)
    requires (forall p | p in sources :: p in root) && Elements(names) == evidence.Keys && forall i, j | 0 <= i < j < |names| :: names[i] != names[j]
    ensures r.Ok? <==> Fits(Elements(sources), KeysOf(names))
    ensures r.Ok? ==> IsStaging(root, Elements(sources), evidence, manifest, r.value)
  {
    hide KeysOf;
    var copied := CopySources(root, sources);
    if copied.Err? {
      FitsMeansCoexist(Elements(sources), KeysOf(names));
      return Err;
    }
    assert copied.value.Keys == Elements(sources);
    r := CopyEvidence(copied.value, evidence, names, manifest);
  }

  lemma FitsMeansCoexist(sources: set<string>, keys: set<string>)
    ensures Fits(sources, keys) ==> Coexist(sources)
  {
    hide Above;
    if Fits(sources, keys) {
      forall p, q | p in sources && q in sources ensures !Above(p, q) {
        assert p in sources + keys + {MANIFEST_PATH} && q in sources + keys + {MANIFEST_PATH};
      }
    }
  }

  // ------------------------------------------------------------------ the whole generator

  datatype Release = Release(manifest: Dict, root: Files, staging: Files)

  function ManifestFor(pf: Platform, root: Files, plan: Plan, probe: Probe, commit: string): Dict {
    SealManifest(pf, Material(pf, root, plan, probe, commit))
  }

  function Sources(plan: Plan): set<string> {
    Elements(plan.runtime) + Elements(plan.attested)
  }

  lemma {:induction false} TwiceCounts<T>(s: seq<T>, i: nat, j: nat)
    requires i < j < |s| && s[i] == s[j]
    ensures multiset(s)[s[i]] >= 2
  {
    assert s == s[..j] + [s[j]] + s[j + 1..];
    assert s[i] in multiset(s[..j]) by { assert s[..j][i] == s[i]; }
  }

  lemma {:induction false} OnceCounts(s: seq<string>, x: string)
    requires Ascending(s, Less)
    ensures multiset(s)[x] <= 1
  {
    hide Less;
    if s != [] {
      var n := |s| - 1;
      OnceCounts(s[..n], x);
      assert s == s[..n] + [s[n]];
      if x == s[n] && x in s[..n] {
        var i :| 0 <= i < n && s[i] == x;
        LessIrreflexive(x);
      }
      assert x == s[n] ==> multiset(s[..n])[x] == 0;
    }
  }

  lemma SortPathsLists(paths: set<string>)
    ensures Elements(SortPaths(paths)) == paths
    ensures forall i, j | 0 <= i < j < |SortPaths(paths)| :: SortPaths(paths)[i] != SortPaths(paths)[j]
  {
    hide Less, Ascending, SortBy, SortText, Slashless;
    var s, r := SortText(paths), SortPaths(paths);
    SortByElements(s, Slashless);
    SortByKeeps(s, Slashless);
    forall i, j | 0 <= i < j < |r| ensures r[i] != r[j] {
      OnceCounts(s, r[i]);
      if r[i] == r[j] { TwiceCounts(r, i, j); }
    }
  }

  /** `main`: what the generator leaves when it succeeds, and exactly when it does. */
  method Generate(pf: Platform, glob: (string, string) -> bool, root: Files, commit: string, evidence: Files, probe: Option<Probe>)
    returns (r: Result<Release>)
    ensures r.Ok? <==>
              && Planned(pf, glob, root, commit, evidence, probe).Ok?
              && !Obstructed(root.Keys, MANIFEST_PATH)
              && var plan := Planned(pf, glob, root, commit, evidence, probe).value;
                 Fits(Sources(plan), EvidenceKeys(plan.evidence))
    ensures r.Ok? ==>
              && probe.Some?
              && var plan := Planned(pf, glob, root, commit, evidence, probe).value;
              && r.value.manifest == ManifestFor(pf, root, plan, probe.value, commit)
              && r.value.root == root[MANIFEST_PATH := pf.render(Obj(r.value.manifest))]
              && IsStaging(r.value.root, Sources(plan), plan.evidence, pf.render(Obj(r.value.manifest)), r.value.staging)
  {
    hide Planned, SortPaths, Fits, IsStaging, ManifestFor;
    var planned := MakePlan(pf, glob, root, commit, evidence, probe);
    if planned.Err? { return Err; }
    var plan := planned.value;
    PlannedSays(pf, glob, root, commit, evidence, probe);
    var manifest := ManifestFor(pf, root, plan, probe.value, commit);
    if Obstructed(root.Keys, MANIFEST_PATH) { return Err; }
    var written := root[MANIFEST_PATH := pf.render(Obj(manifest))];
    SortPathsLists(plan.evidence.Keys);
    EvidenceKeysAre(plan.evidence, SortPaths(plan.evidence.Keys));
    assert Elements(plan.runtime + plan.attested) == Sources(plan);
    var staging := CopyStaging(written, plan.runtime + plan.attested, plan.evidence, SortPaths(plan.evidence.Keys), pf.render(Obj(manifest)));
    if staging.Err? { return Err; }
    r := Ok(Release(manifest, written, staging.value));
  }

  lemma PlannedSays(pf: Platform, glob: (string, string) -> bool, root: Files, commit: string, evidence: Files, probe: Option<Probe>)
    requires Planned(pf, glob, root, commit, evidence, probe).Ok?
    ensures probe.Some?
    ensures var plan := Planned(pf, glob, root, commit, evidence, probe).value; forall p | p in plan.runtime + plan.attested :: p in root
  {
    hide PlanOk, VersionOf, IsPatchOf311, IsHex64, SealedEvidence, RuntimeSelection, AttestedSelection;
    SourcesExist(pf, glob, root, PolicyIn(pf, root).value);
  }

  function Without(s: seq<string>, x: string): seq<string> {
    if s == [] then [] else Without(s[..|s| - 1], x) + if s[|s| - 1] == x then [] else [s[|s| - 1]]
  }

  lemma {:induction false} WithoutElements(s: seq<string>, x: string)
    ensures Elements(Without(s, x)) == Elements(s) - {x}
  {
    if s != [] {
      var n := |s| - 1;
      WithoutElements(s[..n], x);
      assert s == s[..n] + [s[n]];
      assert Elements(s) == Elements(s[..n]) + {s[n]};
      assert Elements(Without(s, x)) == Elements(Without(s[..n], x)) + if s[n] == x then {} else {s[n]};
    }
  }

  /** Leaving one path out of a sorted listing. */
  lemma {:induction false} WithoutKeeps(s: seq<string>, x: string)
    requires Ascending(s, Less)
    ensures Ascending(Without(s, x), Less) && Elements(Without(s, x)) == Elements(s) - {x}
  {
    hide Less;
    WithoutElements(s, x);
    if s != [] {
      var n := |s| - 1;
      var front := Without(s[..n], x);
      WithoutKeeps(s[..n], x);
      forall i | 0 <= i < |front| ensures Less(front[i], s[n]) {
        assert front[i] in Elements(front);
        assert front[i] in s[..n];
        var k :| 0 <= k < n && s[k] == front[i];
      }
    }
  }

  /** The part of `main` before the manifest. */
  method MakePlan(pf: Platform, glob: (string, string) -> bool, root: Files, commit: string, evidence: Files, probe: Option<Probe>)
    returns (r: Result<Plan>)
    ensures r == Planned(pf, glob, root, commit, evidence, probe)
  {
    hide EvidenceBinds, EvidenceErrors, FloorMet, VersionOf, Listing, IsPatchOf311, IsHex64, Get, SealedEvidence, Less, Ascending, Without, Selected;
    var loaded := PolicyIn(pf, root);
    if !IsCommit(Str(commit)) || loaded.None? || !IsPatchOf311(VersionOf(pf, loaded.value)) || LOCK_PATH !in root { return Err; }
    var policy := loaded.value;
    if probe.None? || !ProbeOk(probe.value, VersionOf(pf, policy)) || !Iterable(pf, policy) { return Err; }
    var sealed := SealedEvidence(pf, evidence, probe.value);
    if !FloorMet(sealed) { return Err; }
    var excludes := Listing(pf, Get(policy, "excludeGlobs")).value;
    var selected := Expand(glob, root, Listing(pf, Get(policy, "runtimeGlobs")).value, excludes);
    WithoutKeeps(selected, MANIFEST_PATH);
    var runtime := Without(selected, MANIFEST_PATH);
    SortTextUnique(runtime, RuntimeSelection(pf, glob, root, policy));
    var attested := Expand(glob, root, Listing(pf, Get(policy, "attestedGlobs")).value, excludes);
    if runtime == [] || attested == [] { return Err; }
    var bound := ValidateEvidenceSemantics(pf, sealed, commit, probe.value.version, probe.value.freezeHash, SourceDigest(pf, root, attested));
    NoErrorsExactly(pf, sealed, commit, probe.value.version, probe.value.freezeHash, SourceDigest(pf, root, attested));
    if bound != Some([]) { return Err; }
    r := Ok(Plan(policy, runtime, attested, sealed));
  }

  lemma SourcesExist(pf: Platform, glob: (string, string) -> bool, root: Files, policy: Dict)
    requires Iterable(pf, policy)
    ensures forall p | p in SortText(RuntimeSelection(pf, glob, root, policy)) + SortText(AttestedSelection(pf, glob, root, policy)) :: p in root
  {
    hide Listing, SortText, Get, AnyMatch;
    var a, b := SortText(RuntimeSelection(pf, glob, root, policy)), SortText(AttestedSelection(pf, glob, root, policy));
    forall p | p in a + b ensures p in root { assert p in Elements(a) || p in Elements(b); }
  }

  lemma EvidenceKeysAre(evidence: Files, names: seq<string>)
    requires Elements(names) == evidence.Keys
    ensures KeysOf(names) == EvidenceKeys(evidence)
  {
    assert forall name :: name in names <==> name in Elements(names);
  }
}
