/** What the release generator takes and writes, told in terms of the policy, the source tree, the
    interpreter's answers and the evidence files alone. */
module GeneratorContract {
  import opened Sorting
  import opened TextOrder
  import opened Json
  import opened Platform
  import opened Wrappers
  import opened PosixPath
  import opened ReleaseVerifier
  import opened ReleaseTheorems
  import opened ReleaseGenerator
  import ReleaseAgreement
  import ReleaseContract

  // ------------------------------------------------------------------ the policy and the interpreter

  ghost predicate PolicyIs(pf: Platform, root: Files, policy: Dict) {
    "release/release-policy.json" in root && pf.parse(root["release/release-policy.json"]) == Some(Obj(policy))
  }

  /** The policy declares an exact patch release of Python 3.11. */
  ghost predicate Declares(pf: Platform, policy: Dict, version: string) {
    && Truthy(Get(policy, "releasePythonVersion")) && version == pf.str(Get(policy, "releasePythonVersion"))
    && exists patch :: version == "3.11." + patch && patch != "" && forall c | c in patch :: c in "0123456789"
  }

  /** The interpreter is isolated, of that version, and its environment has a well-formed hash. */
  ghost predicate Reports(probe: Probe, version: string) {
    && probe.prefix != probe.basePrefix && probe.version == version
    && exists digest :: HexText(digest, 64) && probe.freezeHash == "sha256:" + digest
  }

  lemma DigitExactly(c: char)
    ensures '0' <= c <= '9' <==> c in "0123456789"
  {
    if '0' <= c <= '9' { assert "0123456789"[c as int - '0' as int] == c; }
  }

  lemma PatchExactly(version: string)
    ensures IsPatchOf311(version) <==> exists patch :: version == "3.11." + patch && patch != "" && forall c | c in patch :: c in "0123456789"
  {
    forall c: char ensures '0' <= c <= '9' <==> c in "0123456789" { DigitExactly(c); }
    if IsPatchOf311(version) { assert version == "3.11." + version[5..]; }
    if patch :| version == "3.11." + patch && patch != "" && forall c | c in patch :: c in "0123456789" {
      assert version[..5] == "3.11." && version[5..] == patch;
    }
  }

  lemma VersionExactly(pf: Platform, policy: Dict, version: string)
    ensures VersionOf(pf, policy) == version && IsPatchOf311(version) <==> Declares(pf, policy, version)
  {
    hide Truthy, Get, IsPatchOf311;
    PatchExactly(version);
    assert !IsPatchOf311("") by { PatchExactly(""); }
  }

  lemma ProbeExactly(probe: Probe, version: string)
    ensures ProbeOk(probe, version) <==> Reports(probe, version)
  {
    hide IsHex64, HexText;
    if |probe.freezeHash| >= 7 {
      Hex64Exactly(probe.freezeHash[7..]);
      assert "sha256:" <= probe.freezeHash <==> probe.freezeHash == "sha256:" + probe.freezeHash[7..];
    }
    if digest :| HexText(digest, 64) && probe.freezeHash == "sha256:" + digest { assert probe.freezeHash[7..] == digest; }
  }

  // ------------------------------------------------------------------ the selections

  /** A pattern of the policy's list matches the file. */
  ghost predicate Picks(pf: Platform, glob: (string, string) -> bool, policy: Dict, list: string, p: string) {
    exists patterns, k :: Listing(pf, Get(policy, list)) == Some(patterns) && 0 <= k < |patterns| && glob(patterns[k], p)
  }

  /** All five lists can be iterated over. */
  ghost predicate HasLists(pf: Platform, policy: Dict) {
    forall list | list in {"runtimeGlobs", "attestedGlobs", "excludeGlobs", "forbiddenPaths", "allowedEntrypoints"} :: Listing(pf, Get(policy, list)).Some?
  }

  /** What counts as iterable: nothing, a list of values, the keys of an object, the characters of a text. */
  lemma ListingExactly(pf: Platform, j: Json, texts: seq<string>)
    ensures !Truthy(j) ==> Listing(pf, j) == Some([])
    ensures j.Arr? ==> (Listing(pf, j) == Some(texts) <==> |texts| == |j.items| && forall k | 0 <= k < |texts| :: texts[k] == pf.str(j.items[k]))
    ensures j.Obj? ==> Listing(pf, j).Some? && forall text :: text in Listing(pf, j).value <==> text in j.fields
    ensures j.Str? ==> (Listing(pf, j) == Some(texts) <==> |texts| == |j.s| && forall k | 0 <= k < |texts| :: texts[k] == [j.s[k]])
    ensures j == Bool(true) || (j.Num? && j.n != 0) ==> Listing(pf, j).None?
  {
    hide Less;
    match j {
      case Arr(items) => if |texts| == |items| && forall k | 0 <= k < |texts| :: texts[k] == pf.str(items[k]) { assert Listing(pf, j).value == texts; }
      case Str(s) => if |texts| == |s| && forall k | 0 <= k < |texts| :: texts[k] == [s[k]] { assert Listing(pf, j).value == texts; }
      case Obj(fields) =>
        if fields != map[] { assert forall text :: text in SortText(fields.Keys) <==> text in Elements(SortText(fields.Keys)); }
      case _ =>
    }
  }

  /** The paths are those the list picks and the exclusions do not, in ascending order, at least one. */
  ghost predicate Sourced(pf: Platform, glob: (string, string) -> bool, root: Files, policy: Dict, list: string, but: set<string>, paths: seq<string>) {
    && paths != [] && (forall i, j | 0 <= i < j < |paths| :: Less(paths[i], paths[j]))
    && forall p :: p in paths <==> p in root && Picks(pf, glob, policy, list, p) && !Picks(pf, glob, policy, "excludeGlobs", p) && p !in but
  }

  lemma PicksExactly(pf: Platform, glob: (string, string) -> bool, policy: Dict, list: string, p: string)
    requires Listing(pf, Get(policy, list)).Some?
    ensures AnyMatch(glob, Listing(pf, Get(policy, list)).value, p) <==> Picks(pf, glob, policy, list, p)
  {
    hide Listing, Get;
  }

  lemma SelectionExactly(pf: Platform, glob: (string, string) -> bool, root: Files, policy: Dict, list: string, but: set<string>, paths: seq<string>)
    requires Listing(pf, Get(policy, list)).Some? && Listing(pf, Get(policy, "excludeGlobs")).Some?
    ensures var selected := Selected(glob, root, Listing(pf, Get(policy, list)).value, Listing(pf, Get(policy, "excludeGlobs")).value) - but;
            paths == SortText(selected) && paths != [] <==> Sourced(pf, glob, root, policy, list, but, paths)
  {
    hide Listing, Get, Picks, AnyMatch, Less, SortText;
    var selected := Selected(glob, root, Listing(pf, Get(policy, list)).value, Listing(pf, Get(policy, "excludeGlobs")).value) - but;
    forall p ensures p in selected <==> p in root && Picks(pf, glob, policy, list, p) && !Picks(pf, glob, policy, "excludeGlobs", p) && p !in but {
      PicksExactly(pf, glob, policy, list, p);
      PicksExactly(pf, glob, policy, "excludeGlobs", p);
    }
    hide Selected;
    if paths == SortText(selected) { assert forall p :: p in paths <==> p in Elements(paths); }
    if Sourced(pf, glob, root, policy, list, but, paths) {
      assert Elements(paths) == selected;
      SortTextUnique(paths, selected);
    }
  }

  // ------------------------------------------------------------------ the evidence

  /** The evidence directory once the interpreter's answers are in it. */
  ghost predicate SealedAs(pf: Platform, evidence: Files, probe: Probe, sealed: Files) {
    && (forall name :: name in sealed <==> name in evidence || name == "pip-freeze.txt" || name == "python-runtime.json")
    && sealed["pip-freeze.txt"] == probe.freeze && sealed["python-runtime.json"] == pf.render(Obj(RuntimeReport(probe)))
    && forall name | name in evidence && name != "pip-freeze.txt" && name != "python-runtime.json" :: sealed[name] == evidence[name]
  }

  function RuntimeReport(probe: Probe): Dict {
    map["lockedPackageCount" := probe.locked, "installedPackageCount" := probe.installed, "runtimeExecutable" := probe.executable,
        "runtimePrefix" := probe.prefix, "runtimeBasePrefix" := probe.basePrefix] +
    map["schema" := Str("release.python-runtime.v1"), "pythonVersion" := Str(probe.version), "pipFreezeHash" := Str(probe.freezeHash),
        "dependencyLockVerified" := Bool(true), "strictExtras" := Bool(true), "isolatedRuntime" := Bool(true)]
  }

  lemma SealedExactly(pf: Platform, evidence: Files, probe: Probe, sealed: Files)
    ensures SealedEvidence(pf, evidence, probe) == sealed <==> SealedAs(pf, evidence, probe, sealed)
  {
    assert PythonRuntime(probe) == RuntimeReport(probe);
    hide PythonRuntime, RuntimeReport;
    assert "pip-freeze.txt" != "python-runtime.json";
    var full := SealedEvidence(pf, evidence, probe);
    if SealedAs(pf, evidence, probe, sealed) {
      forall name | name in sealed ensures name in full && sealed[name] == full[name] {}
      forall name | name in full ensures name in sealed {}
    }
  }

  const FLOOR := ["compile-syntax.log", "static-contract.log", "app-route-smoke.log", "pytest.log", "production-runtime-verification.json",
                  "attested-files.sha256", "test-attestation.json", "pip-freeze.txt", "python-runtime.json"]

  ghost predicate Reads(pf: Platform, evidence: Files, name: string, d: Dict) {
    name in evidence && pf.parse(evidence[name]) == Some(Obj(d))
  }

  /** An empty list, null, or no such field. */
  ghost predicate NoneListed(d: Dict, field: string) {
    field !in d || d[field] == Null || d[field] == Arr([])
  }

  ghost predicate ProductionSays(d: Dict, version: string, freeze: string) {
    && Get(d, "schema") == Str("dependency.lock.verification.v1") && Get(d, "verified") == Bool(true) && Get(d, "strictExtras") == Bool(true)
    && Get(d, "pythonVersion") == Str(version) && Get(d, "pipFreezeHash") == Str(freeze)
    && NoneListed(d, "missing") && NoneListed(d, "mismatched") && NoneListed(d, "extras")
  }

  /** Hash and path of each file, a line each. */
  function DigestLines(pf: Platform, root: Files, paths: seq<string>): string {
    if paths == [] then "" else pf.hex(DataOf(root, paths[0])) + "  " + paths[0] + "\n" + DigestLines(pf, root, paths[1..])
  }

  /** The evidence is complete and about this commit, this interpreter, and these attested files. */
  ghost predicate Bears(pf: Platform, root: Files, commit: string, probe: Probe, attested: seq<string>, evidence: Files) {
    && (forall name | name in FLOOR :: name in evidence && evidence[name] != [])
    && (exists d :: Reads(pf, evidence, "test-attestation.json", d) && ReleaseContract.AttestationSays(pf, d, Str(commit), probe.version))
    && (exists d :: Reads(pf, evidence, "production-runtime-verification.json", d) && ProductionSays(d, probe.version, probe.freezeHash))
    && (exists d :: Reads(pf, evidence, "python-runtime.json", d) && ReleaseContract.PythonSays(d, probe.version, Str(probe.freezeHash)))
    && (forall data | IsFile(evidence, "pip-freeze.txt", data) :: "sha256:" + pf.hex(data) == probe.freezeHash)
    && (forall data | IsFile(evidence, "attested-files.sha256", data) :: pf.readText(data) == DigestLines(pf, root, attested))
  }

  ghost predicate IsFile(evidence: Files, name: string, data: Bytes) {
    name in evidence && evidence[name] == data
  }

  lemma {:induction false} DigestLinesAppend(pf: Platform, root: Files, paths: seq<string>, p: string)
    ensures DigestLines(pf, root, paths + [p]) == DigestLines(pf, root, paths) + (pf.hex(DataOf(root, p)) + "  " + p + "\n")
  {
    hide DataOf;
    var longer := paths + [p];
    if paths == [] {
      assert longer[1..] == [];
    } else {
      DigestLinesAppend(pf, root, paths[1..], p);
      assert longer[1..] == paths[1..] + [p];
      var line := pf.hex(DataOf(root, p)) + "  " + p + "\n";
      var head := pf.hex(DataOf(root, paths[0])) + "  " + paths[0] + "\n";
      assert head + (DigestLines(pf, root, paths[1..]) + line) == head + DigestLines(pf, root, paths[1..]) + line;
    }
  }

  lemma {:induction false} DigestExactly(pf: Platform, root: Files, paths: seq<string>)
    ensures SourceDigest(pf, root, paths) == DigestLines(pf, root, paths)
  {
    hide DataOf;
    if paths != [] {
      var n := |paths| - 1;
      DigestExactly(pf, root, paths[..n]);
      DigestLinesAppend(pf, root, paths[..n], paths[n]);
      assert paths == paths[..n] + [paths[n]];
    }
  }

  lemma LoadedExactly(pf: Platform, evidence: Files, name: string, d: Dict)
    ensures Loaded(pf, evidence, name) == Some(d) <==> Reads(pf, evidence, name, d)
  {
  }

  lemma ProductionExactly(d: Dict, version: string, freeze: string)
    ensures ProductionLoose(d, version, freeze) <==> ProductionSays(d, version, freeze)
  {
    forall field ensures EmptyOrNull(Get(d, field)) <==> NoneListed(d, field) {}
    hide Get, NoneListed, EmptyOrNull;
  }

  lemma FloorExactly(evidence: Files)
    ensures FloorMet(evidence) <==> forall name | name in FLOOR :: name in evidence && evidence[name] != []
  {
    assert REQUIRED_EVIDENCE_PATHS == FLOOR;
    hide FLOOR, REQUIRED_EVIDENCE_PATHS;
  }

  lemma FloorHasBoth(evidence: Files)
    requires FloorMet(evidence)
    ensures "pip-freeze.txt" in evidence && "attested-files.sha256" in evidence
  {
    var r := REQUIRED_EVIDENCE_PATHS;
    assert r[5] in r && r[7] in r;
  }

  lemma DocumentsExactly(pf: Platform, evidence: Files, commit: string, version: string, freeze: string)
    ensures Loaded(pf, evidence, "test-attestation.json").Some? && AttestationOk(pf, Loaded(pf, evidence, "test-attestation.json").value, commit, version)
       <==> exists d :: Reads(pf, evidence, "test-attestation.json", d) && ReleaseContract.AttestationSays(pf, d, Str(commit), version)
    ensures Loaded(pf, evidence, "production-runtime-verification.json").Some? &&
            ProductionLoose(Loaded(pf, evidence, "production-runtime-verification.json").value, version, freeze)
       <==> exists d :: Reads(pf, evidence, "production-runtime-verification.json", d) && ProductionSays(d, version, freeze)
    ensures Loaded(pf, evidence, "python-runtime.json").Some? && PythonOk(Loaded(pf, evidence, "python-runtime.json").value, version, freeze)
       <==> exists d :: Reads(pf, evidence, "python-runtime.json", d) && ReleaseContract.PythonSays(d, version, Str(freeze))
  {
    hide Loaded, Reads, AttestationOk, ReleaseContract.AttestationSays, ProductionLoose, ProductionSays, PythonOk, ReleaseContract.PythonSays;
    forall name, d ensures Loaded(pf, evidence, name) == Some(d) <==> Reads(pf, evidence, name, d) { LoadedExactly(pf, evidence, name, d); }
    forall d ensures AttestationOk(pf, d, commit, version) <==> ReleaseContract.AttestationSays(pf, d, Str(commit), version) {
      ReleaseContract.AttestationExactly(pf, d, commit, version);
    }
    forall d ensures ProductionLoose(d, version, freeze) <==> ProductionSays(d, version, freeze) { ProductionExactly(d, version, freeze); }
    forall d ensures PythonOk(d, version, freeze) <==> ReleaseContract.PythonSays(d, version, Str(freeze)) { ReleaseContract.ReportsExactly(d, version, freeze); }
  }

  lemma FilesExactly(pf: Platform, evidence: Files, freeze: string, digest: string)
    requires "pip-freeze.txt" in evidence && "attested-files.sha256" in evidence
    ensures Sha(pf, DataOf(evidence, "pip-freeze.txt")) == freeze <==> forall data | IsFile(evidence, "pip-freeze.txt", data) :: "sha256:" + pf.hex(data) == freeze
    ensures pf.readText(DataOf(evidence, "attested-files.sha256")) == digest <==>
            forall data | IsFile(evidence, "attested-files.sha256", data) :: pf.readText(data) == digest
  {
    assert IsFile(evidence, "pip-freeze.txt", evidence["pip-freeze.txt"]);
    assert IsFile(evidence, "attested-files.sha256", evidence["attested-files.sha256"]);
  }

  lemma BearsExactly(pf: Platform, root: Files, commit: string, probe: Probe, attested: seq<string>, evidence: Files)
    ensures FloorMet(evidence) && EvidenceBinds(pf, evidence, commit, probe.version, probe.freezeHash, SourceDigest(pf, root, attested)) <==>
              Bears(pf, root, commit, probe, attested, evidence)
  {
    hide Loaded, Reads, AttestationOk, ReleaseContract.AttestationSays, ProductionLoose, ProductionSays, PythonOk, ReleaseContract.PythonSays, FLOOR,
         FloorMet, SourceDigest, DigestLines, Sha, DataOf, IsFile;
    FloorExactly(evidence);
    DigestExactly(pf, root, attested);
    DocumentsExactly(pf, evidence, commit, probe.version, probe.freezeHash);
    if FloorMet(evidence) {
      FloorHasBoth(evidence);
      FilesExactly(pf, evidence, probe.freezeHash, DigestLines(pf, root, attested));
    }
  }

  // ------------------------------------------------------------------ the plan

  /** Everything that `main` demands before it assembles the manifest, and what it then works with. */
  ghost predicate Plans(pf: Platform, glob: (string, string) -> bool, root: Files, commit: string, evidence: Files, probe: Option<Probe>, plan: Plan) {
    && HexText(commit, 40) && PolicyIs(pf, root, plan.policy) && "requirements.lock" in root
    && probe.Some? && (exists version :: Declares(pf, plan.policy, version) && Reports(probe.value, version))
    && HasLists(pf, plan.policy)
    && Sourced(pf, glob, root, plan.policy, "runtimeGlobs", {"release/release-manifest.json"}, plan.runtime)
    && Sourced(pf, glob, root, plan.policy, "attestedGlobs", {}, plan.attested)
    && SealedAs(pf, evidence, probe.value, plan.evidence)
    && Bears(pf, root, commit, probe.value, plan.attested, plan.evidence)
  }

  lemma ListsExactly(pf: Platform, policy: Dict)
    ensures Iterable(pf, policy) <==> HasLists(pf, policy)
  {
    hide Listing, Get;
  }

  lemma PolicyExactly(pf: Platform, root: Files, policy: Dict)
    ensures PolicyIn(pf, root) == Some(policy) <==> PolicyIs(pf, root, policy)
  {
  }

  lemma PlanExactly(pf: Platform, glob: (string, string) -> bool, root: Files, commit: string, evidence: Files, probe: Probe, plan: Plan)
    requires Iterable(pf, plan.policy)
    ensures plan == PlanFor(pf, glob, root, evidence, probe, plan.policy) && PlanOk(pf, root, commit, probe, plan) <==>
              && Sourced(pf, glob, root, plan.policy, "runtimeGlobs", {"release/release-manifest.json"}, plan.runtime)
              && Sourced(pf, glob, root, plan.policy, "attestedGlobs", {}, plan.attested)
              && SealedAs(pf, evidence, probe, plan.evidence) && Bears(pf, root, commit, probe, plan.attested, plan.evidence)
  {
    hide Listing, Get, Selected, Sourced, SealedAs, SealedEvidence, Bears, FloorMet, EvidenceBinds, SourceDigest, Less;
    SelectionExactly(pf, glob, root, plan.policy, "runtimeGlobs", {MANIFEST_PATH}, plan.runtime);
    SelectionExactly(pf, glob, root, plan.policy, "attestedGlobs", {}, plan.attested);
    assert AttestedSelection(pf, glob, root, plan.policy) - {} == AttestedSelection(pf, glob, root, plan.policy);
    SealedExactly(pf, evidence, probe, plan.evidence);
    BearsExactly(pf, root, commit, probe, plan.attested, plan.evidence);
  }

  /** The generator goes on exactly with the plans of this description. */
  lemma PlannedExactly(pf: Platform, glob: (string, string) -> bool, root: Files, commit: string, evidence: Files, probe: Option<Probe>, plan: Plan)
    ensures Planned(pf, glob, root, commit, evidence, probe) == Ok(plan) <==> Plans(pf, glob, root, commit, evidence, probe, plan)
  {
    hide PolicyIn, PolicyIs, VersionOf, IsPatchOf311, Declares, ProbeOk, Reports, Iterable, HasLists, PlanFor, PlanOk, Sourced, SealedAs, Bears, HexText, IsHexDigit;
    ReleaseContract.HexExactly(commit);
    PolicyExactly(pf, root, plan.policy);
    ListsExactly(pf, plan.policy);
    var version := VersionOf(pf, plan.policy);
    forall v ensures VersionOf(pf, plan.policy) == v && IsPatchOf311(v) <==> Declares(pf, plan.policy, v) { VersionExactly(pf, plan.policy, v); }
    if probe.Some? {
      forall v ensures ProbeOk(probe.value, v) <==> Reports(probe.value, v) { ProbeExactly(probe.value, v); }
      if Iterable(pf, plan.policy) { PlanExactly(pf, glob, root, commit, evidence, probe.value, plan); }
    }
    hide IsCommit;
    PlannedStep(pf, glob, root, commit, evidence, probe, plan);
  }

  lemma PlannedStep(pf: Platform, glob: (string, string) -> bool, root: Files, commit: string, evidence: Files, probe: Option<Probe>, plan: Plan)
    ensures Planned(pf, glob, root, commit, evidence, probe) == Ok(plan) <==>
              && IsCommit(Str(commit)) && PolicyIn(pf, root) == Some(plan.policy) && IsPatchOf311(VersionOf(pf, plan.policy)) && "requirements.lock" in root
              && probe.Some? && ProbeOk(probe.value, VersionOf(pf, plan.policy)) && Iterable(pf, plan.policy)
              && plan == PlanFor(pf, glob, root, evidence, probe.value, plan.policy) && PlanOk(pf, root, commit, probe.value, plan)
  {
    hide PolicyIn, VersionOf, IsPatchOf311, ProbeOk, Iterable, PlanOk, IsCommit, SortText, RuntimeSelection, AttestedSelection, SealedEvidence;
  }

  // ------------------------------------------------------------------ the manifest

  ghost predicate Entry(pf: Platform, e: Json, path: string, data: Bytes) {
    e == Obj(map["path" := Str(path), "sha256" := Str(pf.hex(data)), "size" := Num(|data|)])
  }

  ghost predicate Tabled(pf: Platform, root: Files, paths: seq<string>, items: seq<Json>) {
    && |items| == |paths|
    && forall k | 0 <= k < |paths| :: paths[k] in root && Entry(pf, items[k], paths[k], root[paths[k]])
  }

  /** Every evidence file once, below the attestation directory, component by component in order. */
  ghost predicate EvidenceTabled(pf: Platform, evidence: Files, items: seq<Json>) {
    exists names :: EachInOrder(evidence, names) && Rows(pf, evidence, names, items)
  }

  ghost predicate EachInOrder(evidence: Files, names: seq<string>) {
    && (forall name :: name in names <==> name in evidence)
    && forall i, j | 0 <= i < j < |names| :: names[i] != names[j] && !Less(Slashless(names[j]), Slashless(names[i]))
  }

  ghost predicate Rows(pf: Platform, evidence: Files, names: seq<string>, items: seq<Json>) {
    && |names| == |items|
    && forall k | 0 <= k < |names| :: names[k] in evidence && Entry(pf, items[k], "release/attestation/" + names[k], evidence[names[k]])
  }

  /** The texts of the policy's list in order. */
  ghost predicate Ordered(pf: Platform, j: Json, listed: Json) {
    exists texts: seq<string>, sorted: seq<string> ::
      && Listing(pf, j) == Some(texts) && multiset(sorted) == multiset(texts)
      && (forall i, j | 0 <= i < j < |sorted| :: !Less(sorted[j], sorted[i])) && listed == Texts(sorted)
  }

  function Heading(pf: Platform, policy: Dict, commit: string): Dict {
    var version, mode := Get(policy, "productVersion"), Get(policy, "runtimeMode");
    map["schema" := Str("release.manifest.v1"), "productVersion" := Str(if Truthy(version) then pf.str(version) else ""),
        "runtimeMode" := Str(if Truthy(mode) then pf.str(mode) else "single_release_sealed_runtime"), "sourceCommit" := Str(commit)]
  }

  function Bindings(pf: Platform, lock: Bytes, probe: Probe, run: Json): Dict {
    map["dependencyLock" := Obj(map["path" := Str("requirements.lock"), "sha256" := Str(pf.hex(lock)), "format" := Str("pip-exact-pins-v1")]),
        "buildEnvironment" := Obj(map["pythonVersion" := Str(probe.version), "pipFreezeHash" := Str(probe.freezeHash)]),
        "testRunHash" := run, "verificationContract" := Obj(Rules())]
  }

  function Rules(): Dict {
    map["hashAlgorithm" := Str("sha256"), "canonicalJson" := Str("utf8_sorted_keys_compact"),
        "extraRuntimeFileAllowed" := Bool(false), "forbiddenPathAllowed" := Bool(false), "dependencyLockRequired" := Bool(true),
        "attestedFilesRequired" := Bool(true), "testEvidenceFilesRequired" := Bool(true)]
  }

  /** The manifest before it is sealed. */
  ghost predicate Tells(pf: Platform, root: Files, plan: Plan, probe: Probe, commit: string, unsigned: Dict) {
    exists runtime, attested, evidence, forbidden, entrypoints, run ::
      && Tabled(pf, root, plan.runtime, runtime) && Tabled(pf, root, plan.attested, attested)
      && EvidenceTabled(pf, plan.evidence, evidence) && ReleaseContract.RunSays(pf, evidence, run)
      && Ordered(pf, Get(plan.policy, "forbiddenPaths"), forbidden) && Ordered(pf, Get(plan.policy, "allowedEntrypoints"), entrypoints)
      && "requirements.lock" in root
      && unsigned == Heading(pf, plan.policy, commit) + Tables(runtime, attested, evidence, forbidden, entrypoints) +
                       Bindings(pf, root["requirements.lock"], probe, run)
  }

  function Tables(runtime: seq<Json>, attested: seq<Json>, evidence: seq<Json>, forbidden: Json, entrypoints: Json): Dict {
    map["runtimeFiles" := Arr(runtime), "attestedFiles" := Arr(attested), "testEvidenceFiles" := Arr(evidence),
        "forbiddenPaths" := forbidden, "allowedEntrypoints" := entrypoints]
  }

  ghost predicate SealedOver(pf: Platform, m: Dict, unsigned: Dict) {
    && m.Keys == unsigned.Keys + {"manifestHash", "releaseHash"} && (forall key | key in unsigned :: m[key] == unsigned[key])
    && m["manifestHash"] == Str("sha256:" + pf.hex(pf.canon(Obj(unsigned))))
    && m["releaseHash"] == Str("sha256:" + pf.hex(pf.utf8("release.manifest.v1") + [0] + pf.canon(Obj(unsigned))))
  }

  lemma TableExactly(pf: Platform, root: Files, paths: seq<string>)
    requires forall p | p in paths :: p in root
    ensures Tabled(pf, root, paths, EntriesFor(pf, root, paths))
  {
    forall k | 0 <= k < |paths| ensures paths[k] in root && Entry(pf, EntriesFor(pf, root, paths)[k], paths[k], root[paths[k]]) {
      assert paths[k] in paths;
    }
  }

  lemma EvidenceTableExactly(pf: Platform, evidence: Files)
    ensures EvidenceTabled(pf, evidence, EvidenceEntries(pf, evidence))
  {
    hide Less, Slashless, SortPaths, Entry, EachInOrder, Rows;
    NamesInOrder(evidence);
    RowsExactly(pf, evidence);
  }

  lemma NamesInOrder(evidence: Files)
    ensures EachInOrder(evidence, SortPaths(evidence.Keys))
  {
    hide Less, Slashless, SortPaths;
    var names := SortPaths(evidence.Keys);
    SortPathsLists(evidence.Keys);
    SortPathsOrders(evidence.Keys);
    assert forall name :: name in names <==> name in Elements(names);
  }

  lemma RowsExactly(pf: Platform, evidence: Files)
    ensures Rows(pf, evidence, SortPaths(evidence.Keys), EvidenceEntries(pf, evidence))
  {
    hide SortPaths, Entry;
    var names, items := SortPaths(evidence.Keys), EvidenceEntries(pf, evidence);
    SortPathsLists(evidence.Keys);
    forall k | 0 <= k < |names|
      ensures names[k] in evidence && Entry(pf, items[k], "release/attestation/" + names[k], evidence[names[k]]) {
      assert names[k] in Elements(names);
      EvidenceEntryExactly(pf, evidence, k);
    }
  }

  lemma SortPathsOrders(paths: set<string>)
    ensures var names := SortPaths(paths); forall i, j | 0 <= i < j < |names| :: !Less(Slashless(names[j]), Slashless(names[i]))
  {
    hide Less, Slashless, SortBy, SortText;
    SortByOrders(SortText(paths), Slashless);
  }

  lemma EvidenceEntryExactly(pf: Platform, evidence: Files, k: nat)
    requires k < |SortPaths(evidence.Keys)| && SortPaths(evidence.Keys)[k] in evidence
    ensures var name := SortPaths(evidence.Keys)[k]; Entry(pf, EvidenceEntries(pf, evidence)[k], "release/attestation/" + name, evidence[name])
  {
    hide SortPaths;
  }

  lemma OrderedExactly(pf: Platform, j: Json)
    requires Listing(pf, j).Some?
    ensures Ordered(pf, j, ListedTexts(pf, j))
  {
    hide Less, Listing, SortBy;
    var texts := Listing(pf, j).value;
    SortByKeeps(texts, (s: string) => s);
    SortByOrders(texts, (s: string) => s);
    assert ListedTexts(pf, j) == Texts(SortTexts(texts));
  }

  lemma RunExactly(pf: Platform, evidence: Files)
    requires Faithful(pf) && evidence != map[]
    ensures ReleaseContract.RunSays(pf, EvidenceEntries(pf, evidence), Str(RunHash(pf, EvidenceEntries(pf, evidence))))
  {
    hide Faithful, EvidenceEntries, EntriesFor, Digestible, EntryKey, RawPath, SortBy, RunMaterial, ReleaseContract.RunBytes, ReleaseContract.LinesOf,
         ReleaseContract.InPathOrder, AllDifferent;
    var entries := EvidenceEntries(pf, evidence);
    EntriesAreFit(pf, evidence);
    var sorted := SortBy(entries, EntryKey);
    SortByElements(entries, EntryKey);
    SortByKeeps(entries, EntryKey);
    assert forall e | e in sorted :: e in Elements(sorted);
    ReleaseContract.DigestsExactly(pf, sorted);
    ReleaseContract.SortedExactly(entries, sorted);
  }

  lemma EntriesAreFit(pf: Platform, evidence: Files)
    requires Faithful(pf) && evidence != map[]
    ensures var entries := EvidenceEntries(pf, evidence);
            entries != [] && AllDifferent(entries) && forall e | e in entries :: Digestible(e) && EntryKey(e) == RawPath(e)
  {
    hide Faithful, EvidenceEntries, EntryFor, Digestible, EntryKey, RawPath;
    ReleaseAgreement.PlacedIs(pf, evidence);
    var root, paths := ReleaseAgreement.Placed(evidence), ReleaseAgreement.PlacedNames(evidence);
    hide ReleaseAgreement.Placed, ReleaseAgreement.PlacedNames;
    ReleaseAgreement.EntriesHavePaths(pf, root, paths);
    var entries := EntriesFor(pf, root, paths);
    forall e | e in entries ensures Digestible(e) && EntryKey(e) == RawPath(e) {
      var k :| 0 <= k < |entries| && entries[k] == e;
      assert paths[k] in Elements(paths);
      ReleaseAgreement.EntryFields(pf, paths[k], DataOf(root, paths[k]));
    }
    var name :| name in evidence;
    assert EVIDENCE_ROOT + name in Elements(paths);
  }

  lemma HeadingExactly(pf: Platform, policy: Dict, commit: string)
    ensures HeadFields(pf, policy, commit) == Heading(pf, policy, commit)
  {
    hide Truthy, Get;
  }

  lemma BindingsExactly(pf: Platform, root: Files, plan: Plan, probe: Probe)
    requires "requirements.lock" in root
    ensures BindingFields(pf, root, plan, probe) ==
              Bindings(pf, root["requirements.lock"], probe, Str(RunHash(pf, EvidenceEntries(pf, plan.evidence))))
  {
    hide RunHash, EvidenceEntries;
    assert EXPECTED_VERIFICATION_CONTRACT == Rules();
    hide EXPECTED_VERIFICATION_CONTRACT, Rules;
  }

  lemma TablesExactly(pf: Platform, root: Files, plan: Plan)
    ensures TableFields(pf, root, plan) ==
              Tables(EntriesFor(pf, root, plan.runtime), EntriesFor(pf, root, plan.attested), EvidenceEntries(pf, plan.evidence),
                     ListedTexts(pf, Get(plan.policy, "forbiddenPaths")), ListedTexts(pf, Get(plan.policy, "allowedEntrypoints")))
  {
    hide EntriesFor, EvidenceEntries, ListedTexts, Get;
  }

  /** The manifest written for a plan says this, and its two hashes are over all of it. */
  lemma ManifestExactly(pf: Platform, glob: (string, string) -> bool, root: Files, commit: string, evidence: Files, probe: Option<Probe>)
    requires Faithful(pf) && Planned(pf, glob, root, commit, evidence, probe).Ok?
    ensures probe.Some?
    ensures var plan := Planned(pf, glob, root, commit, evidence, probe).value;
            var unsigned := Material(pf, root, plan, probe.value, commit);
            && Tells(pf, root, plan, probe.value, commit, unsigned)
            && SealedOver(pf, ManifestFor(pf, root, plan, probe.value, commit), unsigned)
  {
    hide Faithful, Planned, Material, ManifestFor, Tells, SealedOver;
    var plan := Planned(pf, glob, root, commit, evidence, probe).value;
    PlannedSays(pf, glob, root, commit, evidence, probe);
    PlanHas(pf, glob, root, commit, evidence, probe);
    MaterialTells(pf, root, plan, probe.value, commit);
    ReleaseAgreement.MaterialIsUnsigned(pf, root, plan, probe.value, commit);
    SealsOver(pf, root, plan, probe.value, commit);
  }

  lemma PlanHas(pf: Platform, glob: (string, string) -> bool, root: Files, commit: string, evidence: Files, probe: Option<Probe>)
    requires Planned(pf, glob, root, commit, evidence, probe).Ok?
    ensures var plan := Planned(pf, glob, root, commit, evidence, probe).value;
            "requirements.lock" in root && Iterable(pf, plan.policy) && plan.evidence != map[]
  {
    hide PolicyIn, VersionOf, IsPatchOf311, ProbeOk, Listing, PlanOk, IsCommit, SortText, RuntimeSelection, AttestedSelection, PythonRuntime, Get;
    var plan := Planned(pf, glob, root, commit, evidence, probe).value;
    assert "pip-freeze.txt" in plan.evidence;
  }

  lemma MaterialTells(pf: Platform, root: Files, plan: Plan, probe: Probe, commit: string)
    requires Faithful(pf) && "requirements.lock" in root && Iterable(pf, plan.policy) && plan.evidence != map[]
    requires forall p | p in plan.runtime + plan.attested :: p in root
    ensures Tells(pf, root, plan, probe, commit, Material(pf, root, plan, probe, commit))
  {
    hide Faithful, EntriesFor, EvidenceEntries, Listing, ListedTexts, Get, HeadFields, TableFields, BindingFields, Heading, Tables, Bindings, RunHash,
         Tabled, EvidenceTabled, Ordered, ReleaseContract.RunSays;
    TableExactly(pf, root, plan.runtime);
    TableExactly(pf, root, plan.attested);
    EvidenceTableExactly(pf, plan.evidence);
    RunExactly(pf, plan.evidence);
    OrderedExactly(pf, Get(plan.policy, "forbiddenPaths"));
    OrderedExactly(pf, Get(plan.policy, "allowedEntrypoints"));
    HeadingExactly(pf, plan.policy, commit);
    TablesExactly(pf, root, plan);
    BindingsExactly(pf, root, plan, probe);
  }

  lemma SealsOver(pf: Platform, root: Files, plan: Plan, probe: Probe, commit: string)
    requires Material(pf, root, plan, probe, commit).Keys !! ReleaseAgreement.HASH_KEYS
    ensures SealedOver(pf, ManifestFor(pf, root, plan, probe, commit), Material(pf, root, plan, probe, commit))
  {
    hide Material;
    assert "manifestHash" != "releaseHash";
    assert "manifestHash" in ReleaseAgreement.HASH_KEYS && "releaseHash" in ReleaseAgreement.HASH_KEYS;
  }

  // ------------------------------------------------------------------ the staging bundle

  /** The files of the staging bundle. */
  ghost predicate InBundle(plan: Plan, path: string) {
    || path == "release/release-manifest.json" || path in plan.runtime || path in plan.attested || Attests(plan, path)
  }

  ghost predicate Attests(plan: Plan, path: string) {
    exists name :: name in plan.evidence && path == "release/attestation/" + name
  }

  /** No source takes an evidence file's place, and no file lies below another. */
  ghost predicate Roomy(plan: Plan) {
    && (forall path | path in plan.runtime || path in plan.attested :: !Attests(plan, path))
    && forall p, q | InBundle(plan, p) && InBundle(plan, q) :: !(p + "/" <= q)
  }

  /** Sources, evidence, and the manifest over everything. */
  ghost predicate Bundled(root: Files, plan: Plan, manifest: Bytes, staging: Files) {
    && (forall path :: path in staging <==> InBundle(plan, path))
    && staging["release/release-manifest.json"] == manifest
    && (forall name | name in plan.evidence :: staging["release/attestation/" + name] == plan.evidence[name])
    && forall path | (path in plan.runtime || path in plan.attested) && path != "release/release-manifest.json" ::
         path in root && staging[path] == root[path]
  }

  lemma SourcesAre(plan: Plan)
    ensures forall path :: path in Sources(plan) <==> path in plan.runtime || path in plan.attested
    ensures forall path :: path in EvidenceKeys(plan.evidence) <==> Attests(plan, path)
    ensures forall path :: path in Sources(plan) + EvidenceKeys(plan.evidence) + {MANIFEST_PATH} <==> InBundle(plan, path)
  {
    assert EVIDENCE_ROOT == "release/attestation/" && MANIFEST_PATH == "release/release-manifest.json";
    hide EVIDENCE_ROOT, MANIFEST_PATH;
  }

  /** Staging succeeds exactly where there is room, and the manifest can be written where nothing is in its way. */
  lemma RoomExactly(root: Files, plan: Plan)
    ensures Fits(Sources(plan), EvidenceKeys(plan.evidence)) <==> Roomy(plan)
    ensures !Obstructed(root.Keys, MANIFEST_PATH) <==>
              forall q | q in root :: !(q + "/" <= "release/release-manifest.json") && !("release/release-manifest.json" + "/" <= q)
  {
    forall p, q ensures Above(p, q) <==> p + "/" <= q { AboveExactly(p, q); }
    SourcesAre(plan);
    hide Above, InBundle, Attests, Sources, EvidenceKeys;
  }

  lemma BundleExactly(root: Files, plan: Plan, manifest: Bytes, staging: Files)
    ensures IsStaging(root, Sources(plan), plan.evidence, manifest, staging) <==> Bundled(root, plan, manifest, staging)
  {
    SourcesAre(plan);
    assert EVIDENCE_ROOT == "release/attestation/" && MANIFEST_PATH == "release/release-manifest.json";
    hide InBundle, Attests, Sources, EvidenceKeys, EVIDENCE_ROOT, MANIFEST_PATH;
    assert staging.Keys == Sources(plan) + EvidenceKeys(plan.evidence) + {MANIFEST_PATH} <==> forall path :: path in staging <==> InBundle(plan, path) by {
      assert forall path :: path in staging.Keys <==> path in staging;
    }
  }
}
