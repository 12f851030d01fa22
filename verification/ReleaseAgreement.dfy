/** Generator and verifier of a release side by side: which generated bundles the verifier accepts. */
module ReleaseAgreement {
  import opened Sorting
  import opened TextOrder
  import opened Json
  import opened Platform
  import opened Wrappers
  import opened PosixPath
  import opened ReleaseVerifier
  import opened ReleaseTheorems
  import opened ReleaseGenerator

  // ------------------------------------------------------------------ the fields of a generated manifest

  const HEAD_KEYS := {"schema", "productVersion", "runtimeMode", "sourceCommit"}
  const TABLE_KEYS := {"runtimeFiles", "attestedFiles", "testEvidenceFiles", "forbiddenPaths", "allowedEntrypoints"}
  const BINDING_KEYS := {"dependencyLock", "buildEnvironment", "testRunHash", "verificationContract"}
  const HASH_KEYS := {"manifestHash", "releaseHash"}

  lemma LayerKeys(pf: Platform, root: Files, plan: Plan, probe: Probe, commit: string)
    ensures HeadFields(pf, plan.policy, commit).Keys == HEAD_KEYS
    ensures TableFields(pf, root, plan).Keys == TABLE_KEYS
    ensures BindingFields(pf, root, plan, probe).Keys == BINDING_KEYS
  {
    hide ListedTexts, EntriesFor, EvidenceEntries, RunHash, StrOrEmpty, Get, EXPECTED_VERIFICATION_CONTRACT;
  }

  lemma HeadApart()
    ensures HEAD_KEYS !! TABLE_KEYS && HEAD_KEYS !! BINDING_KEYS && HEAD_KEYS !! HASH_KEYS
  {
    assert "schema" !in TABLE_KEYS && "productVersion" !in TABLE_KEYS && "runtimeMode" !in TABLE_KEYS && "sourceCommit" !in TABLE_KEYS;
  }

  lemma TableApart()
    ensures TABLE_KEYS !! BINDING_KEYS && TABLE_KEYS !! HASH_KEYS && BINDING_KEYS !! HASH_KEYS
  {
    assert "dependencyLock" !in TABLE_KEYS && "buildEnvironment" !in TABLE_KEYS && "testRunHash" !in TABLE_KEYS && "verificationContract" !in TABLE_KEYS;
  }

  lemma AllKeys()
    ensures HEAD_KEYS + TABLE_KEYS + BINDING_KEYS + HASH_KEYS == MANIFEST_KEYS
  {
  }

  lemma HashFields(pf: Platform, material: Dict)
    ensures SealManifest(pf, material).Keys == material.Keys + HASH_KEYS
    ensures forall key | key !in HASH_KEYS :: Get(SealManifest(pf, material), key) == Get(material, key)
  {
    hide RootHash, Sha;
  }

  /** Every field comes from the layer that declares it, and the key set is the one the verifier wants. */
  lemma FieldLayers(pf: Platform, root: Files, plan: Plan, probe: Probe, commit: string)
    ensures var m := ManifestFor(pf, root, plan, probe, commit);
            && m.Keys == MANIFEST_KEYS
            && (forall key | key in HEAD_KEYS :: Get(m, key) == Get(HeadFields(pf, plan.policy, commit), key))
            && (forall key | key in TABLE_KEYS :: Get(m, key) == Get(TableFields(pf, root, plan), key))
            && (forall key | key in BINDING_KEYS :: Get(m, key) == Get(BindingFields(pf, root, plan, probe), key))
  {
    hide HeadFields, TableFields, BindingFields, SealManifest, HEAD_KEYS, TABLE_KEYS, BINDING_KEYS, HASH_KEYS, MANIFEST_KEYS;
    LayerKeys(pf, root, plan, probe, commit);
    HeadApart();
    TableApart();
    AllKeys();
    HashFields(pf, Material(pf, root, plan, probe, commit));
  }

  lemma HeadSays(pf: Platform, root: Files, plan: Plan, probe: Probe, commit: string)
    ensures var m := ManifestFor(pf, root, plan, probe, commit);
            && Get(m, "schema") == Str(SCHEMA) && Get(m, "productVersion") == Str(StrOrEmpty(pf, Get(plan.policy, "productVersion")))
            && Get(m, "runtimeMode") == Str(if Truthy(Get(plan.policy, "runtimeMode")) then pf.str(Get(plan.policy, "runtimeMode")) else MODE)
            && Get(m, "sourceCommit") == Str(commit)
  {
    FieldLayers(pf, root, plan, probe, commit);
    hide ManifestFor, StrOrEmpty, TableFields, BindingFields;
    assert "schema" in HEAD_KEYS && "productVersion" in HEAD_KEYS && "runtimeMode" in HEAD_KEYS && "sourceCommit" in HEAD_KEYS;
  }

  lemma TablesSay(pf: Platform, root: Files, plan: Plan, probe: Probe, commit: string)
    ensures var m := ManifestFor(pf, root, plan, probe, commit);
            && Get(m, "runtimeFiles") == Arr(EntriesFor(pf, root, plan.runtime)) && Get(m, "attestedFiles") == Arr(EntriesFor(pf, root, plan.attested))
            && Get(m, "testEvidenceFiles") == Arr(EvidenceEntries(pf, plan.evidence))
            && Get(m, "forbiddenPaths") == ListedTexts(pf, Get(plan.policy, "forbiddenPaths"))
            && Get(m, "allowedEntrypoints") == ListedTexts(pf, Get(plan.policy, "allowedEntrypoints"))
  {
    FieldLayers(pf, root, plan, probe, commit);
    hide ManifestFor, ListedTexts, EntriesFor, EvidenceEntries, HeadFields, BindingFields;
    assert "runtimeFiles" in TABLE_KEYS && "attestedFiles" in TABLE_KEYS && "testEvidenceFiles" in TABLE_KEYS;
    assert "forbiddenPaths" in TABLE_KEYS && "allowedEntrypoints" in TABLE_KEYS;
  }

  lemma BindingsSay(pf: Platform, root: Files, plan: Plan, probe: Probe, commit: string)
    ensures var m := ManifestFor(pf, root, plan, probe, commit);
            && Get(m, "dependencyLock") == Obj(map["path" := Str(LOCK_PATH), "sha256" := Str(pf.hex(DataOf(root, LOCK_PATH))), "format" := Str("pip-exact-pins-v1")])
            && Get(m, "buildEnvironment") == Obj(map["pythonVersion" := Str(probe.version), "pipFreezeHash" := Str(probe.freezeHash)])
            && Get(m, "testRunHash") == Str(RunHash(pf, EvidenceEntries(pf, plan.evidence)))
            && Get(m, "verificationContract") == Obj(EXPECTED_VERIFICATION_CONTRACT)
  {
    FieldLayers(pf, root, plan, probe, commit);
    hide ManifestFor, EvidenceEntries, RunHash, HeadFields, TableFields, EXPECTED_VERIFICATION_CONTRACT;
    assert "dependencyLock" in BINDING_KEYS && "buildEnvironment" in BINDING_KEYS && "testRunHash" in BINDING_KEYS && "verificationContract" in BINDING_KEYS;
  }

  lemma MaterialIsUnsigned(pf: Platform, root: Files, plan: Plan, probe: Probe, commit: string)
    ensures Material(pf, root, plan, probe, commit).Keys !! HASH_KEYS
  {
    hide HeadFields, TableFields, BindingFields, HEAD_KEYS, TABLE_KEYS, BINDING_KEYS, HASH_KEYS;
    LayerKeys(pf, root, plan, probe, commit);
    HeadApart();
    TableApart();
  }

  lemma SealingSigns(pf: Platform, material: Dict)
    requires material.Keys !! HASH_KEYS
    ensures var m := SealManifest(pf, material);
            && Get(m, "manifestHash") == Str(Sha(pf, Canonical(pf, m))) && Get(m, "releaseHash") == Str(RootHash(pf, Canonical(pf, m)))
  {
    hide Sha, RootHash;
    var m := SealManifest(pf, material);
    assert "manifestHash" !in material && "releaseHash" !in material by { assert "manifestHash" in HASH_KEYS && "releaseHash" in HASH_KEYS; }
    assert m - {"manifestHash", "releaseHash"} == material;
  }

  lemma ContractIsItself()
    ensures SameDict(Obj(EXPECTED_VERIFICATION_CONTRACT), EXPECTED_VERIFICATION_CONTRACT)
  {
    hide EXPECTED_VERIFICATION_CONTRACT;
  }

  /** A generated manifest is always sealed. */
  lemma GeneratedIsSealed(pf: Platform, root: Files, plan: Plan, probe: Probe, commit: string)
    requires IsCommit(Str(commit))
    ensures SealOk(pf, ManifestFor(pf, root, plan, probe, commit))
  {
    hide EXPECTED_VERIFICATION_CONTRACT, IsCommit, Sha, RootHash, Canonical, Material, HASH_KEYS, SealManifest, SameDict, Get;
    HeadSays(pf, root, plan, probe, commit);
    BindingsSay(pf, root, plan, probe, commit);
    MaterialIsUnsigned(pf, root, plan, probe, commit);
    SealingSigns(pf, Material(pf, root, plan, probe, commit));
    ContractIsItself();
  }

  // ------------------------------------------------------------------ lists of text

  lemma {:induction false} TextsInAll(items: seq<Json>)
    requires forall item | item in items :: IsText(item)
    ensures |TextsIn(items)| == |items| && forall k | 0 <= k < |items| :: items[k].Str? && TextsIn(items)[k] == items[k].s
  {
    if items != [] {
      var n := |items| - 1;
      assert items == items[..n] + [items[n]] && items[n] in items;
      TextsInAll(items[..n]);
    }
  }

  lemma ListingOfTexts(pf: Platform, j: Json)
    requires Faithful(pf) && IsTextList(j)
    ensures Listing(pf, j) == Some(TextsOf(j)) && forall t | t in TextsOf(j) :: t != ""
  {
    hide Faithful;
    TextsInAll(j.items);
    var listed := Listing(pf, j).value;
    forall k | 0 <= k < |j.items| ensures listed[k] == TextsOf(j)[k] && TextsOf(j)[k] != "" {
      assert j.items[k] in j.items;
      StrIsFaithful(pf, j.items[k].s);
    }
    assert listed == TextsOf(j);
  }

  lemma StrIsFaithful(pf: Platform, s: string)
    requires Faithful(pf)
    ensures pf.str(Str(s)) == s && (s != "" ==> StrOrEmpty(pf, Str(s)) == s)
  {
  }

  /** Text written as a list reads back as it was. */
  lemma TextsBack(texts: seq<string>)
    requires forall t | t in texts :: t != ""
    ensures TextsOf(Texts(texts)) == texts
    ensures IsTextList(Texts(texts)) <==> texts != [] && Distinct(texts)
  {
    var items := Texts(texts).items;
    forall item | item in items ensures IsText(item) {
      var k :| 0 <= k < |items| && items[k] == item;
      assert texts[k] in texts;
    }
    TextsInAll(items);
    assert TextsIn(items) == texts;
  }

  lemma SortTextsKeeps(texts: seq<string>)
    ensures Elements(SortTexts(texts)) == Elements(texts) && |SortTexts(texts)| == |texts|
    ensures SortTexts(texts) == [] <==> texts == []
  {
    hide SortBy;
    SortByElements(texts, (s: string) => s);
    SortByKeeps(texts, (s: string) => s);
  }

  /** What the generator makes of a proper list: the same texts, sorted. */
  lemma ListedIsSorted(pf: Platform, j: Json)
    requires Faithful(pf) && IsTextList(j)
    ensures TextsOf(ListedTexts(pf, j)) == SortTexts(TextsOf(j)) && IsTextList(ListedTexts(pf, j))
    ensures Elements(TextsOf(ListedTexts(pf, j))) == Elements(TextsOf(j))
  {
    hide Faithful, Listing, SortTexts, Truthy;
    ListingOfTexts(pf, j);
    SortTextsKeeps(TextsOf(j));
    forall t | t in SortTexts(TextsOf(j)) ensures t != "" { assert t in Elements(SortTexts(TextsOf(j))); }
    TextsBack(SortTexts(TextsOf(j)));
  }

  ghost predicate ListedInOrder(policy: Dict, key: string) {
    TextsOf(Get(policy, key)) == SortTexts(TextsOf(Get(policy, key)))
  }

  /** The verifier compares lists where the generator sorts: the policy must be in order. */
  lemma ListsAgree(pf: Platform, m: Dict, policy: Dict)
    requires Faithful(pf) && PolicyListsOk(policy)
    requires Get(m, "forbiddenPaths") == ListedTexts(pf, Get(policy, "forbiddenPaths"))
    requires Get(m, "allowedEntrypoints") == ListedTexts(pf, Get(policy, "allowedEntrypoints"))
    ensures ManifestListsOk(m, policy) <==> ListedInOrder(policy, "allowedEntrypoints") && ListedInOrder(policy, "forbiddenPaths")
  {
    hide Faithful, Get, IsTextList, TextsOf, SortTexts, ListedTexts, EXPECTED_RUNTIME_GLOBS, EXPECTED_ATTESTED_GLOBS, EXPECTED_EXCLUDE_GLOBS,
         EXPECTED_ENTRYPOINTS, REQUIRED_FORBIDDEN_PATHS;
    ListedIsSorted(pf, Get(policy, "forbiddenPaths"));
    ListedIsSorted(pf, Get(policy, "allowedEntrypoints"));
  }

  // ------------------------------------------------------------------ tables

  lemma EntryFields(pf: Platform, path: string, data: Bytes)
    requires Faithful(pf)
    ensures var e := EntryFor(pf, path, data);
            && HasExactly(e, FILE_ENTRY_KEYS) && RawPath(e) == path && EntryKey(e) == path
            && Get(e.fields, "sha256") == Str(pf.hex(data)) && Get(e.fields, "size") == Num(|data|) && Get(e.fields, "path") == Str(path)
            && IsSha(Get(e.fields, "sha256")) && (path != "" ==> Digestible(e))
  {
    hide IsHexDigit;
    assert IsHex64(pf.hex(data));
  }

  /** A written entry is in order exactly when its file has the data it was written for, up to a hash. */
  lemma WrittenEntry(pf: Platform, files: Files, path: string, data: Bytes)
    requires Faithful(pf) && SafeMemberName(path) == Ok(path) && path in files && files[path] == data
    ensures EntryOk(pf, files, EntryFor(pf, path, data))
  {
    hide SafeMemberName, Faithful, IsHex64, HasExactly;
    EntryFields(pf, path, data);
  }

  lemma EntriesHavePaths(pf: Platform, root: Files, paths: seq<string>)
    requires Faithful(pf)
    ensures RawPaths(EntriesFor(pf, root, paths)) == Elements(paths)
    ensures (forall i, j | 0 <= i < j < |paths| :: paths[i] != paths[j]) ==> AllDifferent(EntriesFor(pf, root, paths))
  {
    hide Faithful, RawPath, EntryFor;
    var entries := EntriesFor(pf, root, paths);
    forall k | 0 <= k < |paths| ensures RawPath(entries[k]) == paths[k] { EntryFields(pf, paths[k], DataOf(root, paths[k])); }
    forall p | p in paths ensures p in RawPaths(entries) {
      var k :| 0 <= k < |paths| && paths[k] == p;
      assert entries[k] in entries;
    }
    forall p | p in RawPaths(entries) ensures p in paths {
      var e :| e in entries && RawPath(e) == p;
      var k :| 0 <= k < |entries| && entries[k] == e;
    }
  }

  /** A table written from a listing of distinct safe paths, over files that still hold the same data. */
  lemma WrittenTable(pf: Platform, root: Files, files: Files, paths: seq<string>, before: set<string>)
    requires Faithful(pf) && paths != [] && forall i, j | 0 <= i < j < |paths| :: paths[i] != paths[j]
    requires forall p | p in paths :: SafeMemberName(p) == Ok(p) && p in root && p in files && files[p] == root[p]
    ensures EntriesOk(pf, files, Arr(EntriesFor(pf, root, paths)), before) <==> Elements(paths) !! before
  {
    hide SafeMemberName, Faithful, EntryOk, EntryFor, RawPath;
    var entries := EntriesFor(pf, root, paths);
    EntriesHavePaths(pf, root, paths);
    EntriesCleanExactly(pf, files, entries, before);
    forall e | e in entries ensures EntryOk(pf, files, e) {
      var k :| 0 <= k < |entries| && entries[k] == e;
      assert paths[k] in paths;
      WrittenEntry(pf, files, paths[k], root[paths[k]]);
    }
  }

  /** The evidence directory as files of the bundle. */
  function Placed(evidence: Files): Files {
    map key | key in EvidenceKeys(evidence) :: DataOf(evidence, key[|EVIDENCE_ROOT|..])
  }

  function PlacedNames(evidence: Files): seq<string> {
    var names := SortPaths(evidence.Keys);
    seq(|names|, k requires 0 <= k < |names| => EVIDENCE_ROOT + names[k])
  }

  lemma PlacedIs(pf: Platform, evidence: Files)
    ensures EvidenceEntries(pf, evidence) == EntriesFor(pf, Placed(evidence), PlacedNames(evidence))
    ensures Elements(PlacedNames(evidence)) == EvidenceKeys(evidence)
    ensures forall i, j | 0 <= i < j < |PlacedNames(evidence)| :: PlacedNames(evidence)[i] != PlacedNames(evidence)[j]
    ensures forall name | name in evidence :: EVIDENCE_ROOT + name in Placed(evidence) && Placed(evidence)[EVIDENCE_ROOT + name] == evidence[name]
  {
    hide SortPaths, EVIDENCE_ROOT, EntryFor;
    var names, placed := SortPaths(evidence.Keys), PlacedNames(evidence);
    SortPathsLists(evidence.Keys);
    forall name ensures (EVIDENCE_ROOT + name)[|EVIDENCE_ROOT|..] == name {}
    forall k | 0 <= k < |names| ensures names[k] in evidence { assert names[k] in Elements(names); }
    forall i, j | 0 <= i < j < |placed| ensures placed[i] != placed[j] {
      assert names[i] == placed[i][|EVIDENCE_ROOT|..] && names[j] == placed[j][|EVIDENCE_ROOT|..];
    }
    forall key | key in EvidenceKeys(evidence) ensures key in placed {
      var name :| name in evidence && key == EVIDENCE_ROOT + name;
      assert name in Elements(names);
      var k :| 0 <= k < |names| && names[k] == name;
      assert placed[k] == key;
    }
  }

  // ------------------------------------------------------------------ digests

  lemma {:induction false} DigestTextOf(pf: Platform, root: Files, paths: seq<string>)
    requires Faithful(pf) && forall p | p in paths :: p != ""
    ensures DigestText(EntriesFor(pf, root, paths)) == Some(SourceDigest(pf, root, paths))
  {
    hide Faithful, Digestible, EntryFor;
    if paths != [] {
      var n := |paths| - 1;
      assert paths[n] in paths && forall p | p in paths[..n] :: p in paths;
      DigestTextOf(pf, root, paths[..n]);
      assert EntriesFor(pf, root, paths)[..n] == EntriesFor(pf, root, paths[..n]);
      EntryFields(pf, paths[n], DataOf(root, paths[n]));
    }
  }

  lemma {:induction false} RunMaterialOf(pf: Platform, entries: seq<Json>)
    requires forall e | e in entries :: Digestible(e)
    ensures RunMaterial(pf, entries).Some?
  {
    hide Digestible;
    if entries != [] {
      var n := |entries| - 1;
      assert entries[n] in entries && forall e | e in entries[..n] :: e in entries;
      RunMaterialOf(pf, entries[..n]);
    }
  }

  lemma EntriesInOrder(pf: Platform, root: Files, paths: seq<string>)
    requires Faithful(pf) && Ascending(paths, Less)
    ensures SortBy(EntriesFor(pf, root, paths), EntryKey) == EntriesFor(pf, root, paths)
  {
    hide Faithful, Less, EntryFor, EntryKey, SortBy;
    var entries := EntriesFor(pf, root, paths);
    forall i, j | 0 <= i < j < |entries| ensures !Less(EntryKey(entries[j]), EntryKey(entries[i])) {
      EntryFields(pf, paths[i], DataOf(root, paths[i]));
      EntryFields(pf, paths[j], DataOf(root, paths[j]));
      TextIsOrdered();
      LessIrreflexive(paths[i]);
      if Less(paths[j], paths[i]) { LessTransitive(paths[i], paths[j], paths[i]); }
    }
    SortByFixes(entries, EntryKey);
  }

  lemma AttestedDigestAgrees(pf: Platform, root: Files, paths: seq<string>)
    requires Faithful(pf) && Ascending(paths, Less) && paths != [] && forall p | p in paths :: p != ""
    ensures AttestedDigest(Arr(EntriesFor(pf, root, paths))) == Some(SourceDigest(pf, root, paths))
  {
    hide Faithful, Less, EntryFor, SortBy, Ascending, DigestText, SourceDigest;
    EntriesInOrder(pf, root, paths);
    DigestTextOf(pf, root, paths);
  }

  lemma TestRunAgrees(pf: Platform, root: Files, paths: seq<string>)
    requires Faithful(pf) && paths != [] && forall p | p in paths :: p != ""
    ensures TestRunOk(pf, Arr(EntriesFor(pf, root, paths)), Str(RunHash(pf, EntriesFor(pf, root, paths))))
  {
    hide Faithful, EntryFor, SortBy, Digestible, RunMaterial;
    var entries := EntriesFor(pf, root, paths);
    SortByElements(entries, EntryKey);
    forall e | e in SortBy(entries, EntryKey) ensures Digestible(e) {
      assert e in Elements(SortBy(entries, EntryKey));
      var k :| 0 <= k < |entries| && entries[k] == e;
      assert paths[k] in paths;
      EntryFields(pf, paths[k], DataOf(root, paths[k]));
    }
    RunMaterialOf(pf, SortBy(entries, EntryKey));
  }

  // ------------------------------------------------------------------ evidence

  lemma {:induction false} EntryMapOf(pf: Platform, root: Files, paths: seq<string>, p: string)
    requires Faithful(pf) && p in paths
    ensures var m := EntryMap(EntriesFor(pf, root, paths)); p in m && m[p] == EntryFor(pf, p, DataOf(root, p)).fields
  {
    hide Faithful, EntryFor, EntryKey;
    var n := |paths| - 1;
    var entries := EntriesFor(pf, root, paths);
    assert entries[..n] == EntriesFor(pf, root, paths[..n]);
    EntryFields(pf, paths[n], DataOf(root, paths[n]));
    if p != paths[n] {
      assert paths == paths[..n] + [paths[n]];
      EntryMapOf(pf, root, paths[..n], p);
    }
  }

  lemma FloorAgrees(pf: Platform, evidence: Files)
    requires Faithful(pf) && FloorMet(evidence)
    ensures FloorOk(Arr(EvidenceEntries(pf, evidence)))
  {
    hide Faithful, REQUIRED_EVIDENCE_PATHS, EntryMap, EntryFor, EVIDENCE_ROOT, PlacedNames, Placed, EntriesFor;
    PlacedIs(pf, evidence);
    forall name | name in REQUIRED_EVIDENCE_PATHS ensures FloorHolds(EntryMap(EvidenceEntries(pf, evidence)), name) {
      assert EVIDENCE_ROOT + name in Elements(PlacedNames(evidence));
      EntryMapOf(pf, Placed(evidence), PlacedNames(evidence), EVIDENCE_ROOT + name);
      EntryFields(pf, EVIDENCE_ROOT + name, DataOf(Placed(evidence), EVIDENCE_ROOT + name));
    }
  }

  lemma StagedEvidence(pf: Platform, root: Files, sources: set<string>, evidence: Files, manifest: Bytes, staging: Files, name: string)
    requires IsStaging(root, sources, evidence, manifest, staging) && name in evidence
    ensures EVIDENCE_ROOT + name in staging && staging[EVIDENCE_ROOT + name] == DataOf(evidence, name)
    ensures EvidenceDict(pf, staging, name) == Loaded(pf, evidence, name)
  {
    hide EVIDENCE_ROOT, MANIFEST_PATH;
    assert EVIDENCE_ROOT + name in EvidenceKeys(evidence);
  }

  lemma RequiredNames(evidence: Files)
    requires FloorMet(evidence)
    ensures "test-attestation.json" in evidence && "production-runtime-verification.json" in evidence && "python-runtime.json" in evidence
    ensures "pip-freeze.txt" in evidence && "attested-files.sha256" in evidence
  {
    var r := REQUIRED_EVIDENCE_PATHS;
    assert r[4] in r && r[5] in r && r[6] in r && r[7] in r && r[8] in r;
  }

  /** The production report that the generator accepts with nulls and the verifier without. */
  ghost predicate StrictLists(d: Dict) {
    Get(d, "missing") == Arr([]) && Get(d, "mismatched") == Arr([]) && Get(d, "extras") == Arr([])
  }

  lemma EvidenceAgrees(pf: Platform, root: Files, sources: set<string>, plan: Plan, probe: Probe, commit: string, m: Dict,
                       staging: Files, bytes: Bytes, digest: string)
    requires Faithful(pf) && IsStaging(root, sources, plan.evidence, bytes, staging) && FloorMet(plan.evidence)
    requires commit != "" && probe.version != "" && probe.freezeHash != ""
    requires EvidenceBinds(pf, plan.evidence, commit, probe.version, probe.freezeHash, digest)
    requires Get(m, "sourceCommit") == Str(commit)
    requires Get(m, "buildEnvironment") == Obj(map["pythonVersion" := Str(probe.version), "pipFreezeHash" := Str(probe.freezeHash)])
    requires Get(m, "testEvidenceFiles") == Arr(EvidenceEntries(pf, plan.evidence))
    requires AttestedDigest(Get(m, "attestedFiles")) == Some(digest)
    ensures Loaded(pf, plan.evidence, "production-runtime-verification.json").Some?
    ensures EvidenceOk(pf, staging, m) <==> StrictLists(Loaded(pf, plan.evidence, "production-runtime-verification.json").value)
  {
    hide IsStaging, Faithful, FloorMet, FloorOk, AttestationOk, PythonOk, Loaded, EvidenceDict, EVIDENCE_ROOT, StrOrEmpty, Get, Sha, AttestedDigest,
         EvidenceEntries, ProductionBound;
    RequiredNames(plan.evidence);
    FloorAgrees(pf, plan.evidence);
    StrIsFaithful(pf, commit);
    StrIsFaithful(pf, probe.version);
    StrIsFaithful(pf, probe.freezeHash);
    EnvironmentFields(probe);
    StagedEvidence(pf, root, sources, plan.evidence, bytes, staging, "test-attestation.json");
    StagedEvidence(pf, root, sources, plan.evidence, bytes, staging, "production-runtime-verification.json");
    StagedEvidence(pf, root, sources, plan.evidence, bytes, staging, "python-runtime.json");
    StagedEvidence(pf, root, sources, plan.evidence, bytes, staging, "pip-freeze.txt");
    StagedEvidence(pf, root, sources, plan.evidence, bytes, staging, "attested-files.sha256");
  }

  lemma EnvironmentFields(probe: Probe)
    ensures var environment := Obj(map["pythonVersion" := Str(probe.version), "pipFreezeHash" := Str(probe.freezeHash)]);
            && Truthy(environment) && DictOf(environment) == environment.fields
            && Get(DictOf(environment), "pythonVersion") == Str(probe.version) && Get(DictOf(environment), "pipFreezeHash") == Str(probe.freezeHash)
            && HasExactly(environment, BUILD_ENVIRONMENT_KEYS)
  {
    var fields := map["pythonVersion" := Str(probe.version), "pipFreezeHash" := Str(probe.freezeHash)];
    assert "pythonVersion" in fields;
  }

  // ------------------------------------------------------------------ what is on disk

  ghost predicate Unselected(glob: (string, string) -> bool, keys: set<string>, patterns: seq<string>, excludes: seq<string>) {
    forall key | key in keys && !AnyMatch(glob, excludes, key) :: !AnyMatch(glob, patterns, key)
  }

  ghost predicate OutsideEvidence(sources: set<string>) {
    forall p | p in sources :: !(EVIDENCE_ROOT <= p)
  }

  /** The policy selects no evidence file and not the manifest as attested, and no source lies in the
      attestation directory. */
  ghost predicate KeptApart(glob: (string, string) -> bool, policy: Dict, plan: Plan) {
    var excludes := TextsOf(Get(policy, "excludeGlobs"));
    && MANIFEST_PATH !in Elements(plan.attested)
    && Unselected(glob, EvidenceKeys(plan.evidence), TextsOf(Get(policy, "runtimeGlobs")), excludes)
    && Unselected(glob, EvidenceKeys(plan.evidence), TextsOf(Get(policy, "attestedGlobs")), excludes)
    && OutsideEvidence(Sources(plan))
  }

  lemma SelectionAgrees(glob: (string, string) -> bool, root: Files, files: Files, patterns: seq<string>, excludes: seq<string>,
                        sources: set<string>, keys: set<string>, selected: set<string>)
    requires files.Keys == sources + keys + {MANIFEST_PATH} && sources <= root.Keys + {MANIFEST_PATH}
    requires selected - {MANIFEST_PATH} == Selected(glob, root, patterns, excludes) - {MANIFEST_PATH} && selected <= sources
    requires keys !! sources && MANIFEST_PATH !in keys
    ensures selected == PolicyPaths(glob, files, patterns, excludes) <==>
              MANIFEST_PATH !in selected && Unselected(glob, keys, patterns, excludes)
  {
    hide AnyMatch, MANIFEST_PATH;
    var disk := PolicyPaths(glob, files, patterns, excludes);
    forall p | p in sources && p != MANIFEST_PATH ensures p in disk <==> p in selected {
      assert p in selected - {MANIFEST_PATH} <==> p in Selected(glob, root, patterns, excludes) - {MANIFEST_PATH};
    }
    forall key | key in keys ensures key in disk <==> AnyMatch(glob, patterns, key) && !AnyMatch(glob, excludes, key) {}
    if selected == disk {
      forall key | key in keys && !AnyMatch(glob, excludes, key) ensures !AnyMatch(glob, patterns, key) { assert key !in selected; }
    }
    if MANIFEST_PATH !in selected && Unselected(glob, keys, patterns, excludes) {
      forall p ensures p in selected <==> p in disk {}
    }
  }

  lemma EvidenceOnDisk(files: Files, sources: set<string>, evidence: Files)
    requires files.Keys == sources + EvidenceKeys(evidence) + {MANIFEST_PATH} && EvidenceKeys(evidence) !! sources
    ensures EvidenceKeys(evidence) == EvidencePaths(files) <==> OutsideEvidence(sources)
  {
    ManifestOutside();
    hide EVIDENCE_ROOT, MANIFEST_PATH;
    if EvidenceKeys(evidence) == EvidencePaths(files) {
      forall p | p in sources ensures !(EVIDENCE_ROOT <= p) { assert p !in EvidencePaths(files); }
    }
    if OutsideEvidence(sources) {
      forall p ensures p in EvidenceKeys(evidence) <==> p in EvidencePaths(files) {}
    }
  }

  lemma ManifestOutside()
    ensures !(EVIDENCE_ROOT <= MANIFEST_PATH)
  {
    assert EVIDENCE_ROOT[8] == 'a' && MANIFEST_PATH[8] == 'r';
  }

  /** The three path sets of a generated manifest. */
  lemma GeneratedPaths(pf: Platform, root: Files, plan: Plan, m: Dict)
    requires Faithful(pf)
    requires Get(m, "runtimeFiles") == Arr(EntriesFor(pf, root, plan.runtime)) && Get(m, "attestedFiles") == Arr(EntriesFor(pf, root, plan.attested))
    requires Get(m, "testEvidenceFiles") == Arr(EvidenceEntries(pf, plan.evidence))
    ensures PathsIn(Get(m, "runtimeFiles")) == Elements(plan.runtime) && PathsIn(Get(m, "attestedFiles")) == Elements(plan.attested)
    ensures PathsIn(Get(m, "testEvidenceFiles")) == EvidenceKeys(plan.evidence)
  {
    hide Faithful, Get, EntryFor, RawPath, EntriesFor, EvidenceEntries, RawPaths, PlacedNames, Placed, EvidenceKeys;
    EntriesHavePaths(pf, root, plan.runtime);
    EntriesHavePaths(pf, root, plan.attested);
    PlacedIs(pf, plan.evidence);
    EntriesHavePaths(pf, Placed(plan.evidence), PlacedNames(plan.evidence));
  }

  /** The three comparisons with the disk come to `KeptApart`. */
  lemma SetsAgree(pf: Platform, glob: (string, string) -> bool, root: Files, plan: Plan, m: Dict, policy: Dict, staging: Files)
    requires Elements(plan.runtime) == Selected(glob, root, TextsOf(Get(policy, "runtimeGlobs")), TextsOf(Get(policy, "excludeGlobs"))) - {MANIFEST_PATH}
    requires Elements(plan.attested) == Selected(glob, root, TextsOf(Get(policy, "attestedGlobs")), TextsOf(Get(policy, "excludeGlobs")))
    requires PathsIn(Get(m, "runtimeFiles")) == Elements(plan.runtime) && PathsIn(Get(m, "attestedFiles")) == Elements(plan.attested)
    requires PathsIn(Get(m, "testEvidenceFiles")) == EvidenceKeys(plan.evidence)
    requires staging.Keys == Sources(plan) + EvidenceKeys(plan.evidence) + {MANIFEST_PATH} && Sources(plan) !! EvidenceKeys(plan.evidence)
    ensures SetsOk(glob, staging, m, policy) <==> KeptApart(glob, policy, plan)
  {
    hide TextsOf, Get, EVIDENCE_ROOT, MANIFEST_PATH, PolicyPaths, EvidencePaths, EvidenceKeys, PathsIn, Unselected, OutsideEvidence, AnyMatch;
    var keys := EvidenceKeys(plan.evidence);
    var excludes := TextsOf(Get(policy, "excludeGlobs"));
    KeysAreNotManifest(plan.evidence);
    SelectionAgrees(glob, root, staging, TextsOf(Get(policy, "runtimeGlobs")), excludes, Sources(plan), keys, Elements(plan.runtime));
    SelectionAgrees(glob, root, staging, TextsOf(Get(policy, "attestedGlobs")), excludes, Sources(plan), keys, Elements(plan.attested));
    hide Selected;
    EvidenceOnDisk(staging, Sources(plan), plan.evidence);
  }

  lemma KeysAreNotManifest(evidence: Files)
    ensures MANIFEST_PATH !in EvidenceKeys(evidence)
  {
    forall name | name in evidence ensures EVIDENCE_ROOT + name != MANIFEST_PATH { EvidenceIsNotManifest(name); }
  }

  lemma PolicyListings(pf: Platform, policy: Dict)
    requires Faithful(pf) && PolicyListsOk(policy)
    ensures Listing(pf, Get(policy, "runtimeGlobs")) == Some(TextsOf(Get(policy, "runtimeGlobs")))
    ensures Listing(pf, Get(policy, "attestedGlobs")) == Some(TextsOf(Get(policy, "attestedGlobs")))
    ensures Listing(pf, Get(policy, "excludeGlobs")) == Some(TextsOf(Get(policy, "excludeGlobs")))
  {
    hide Faithful, Listing, TextsOf, IsTextList, Get, EXPECTED_RUNTIME_GLOBS, EXPECTED_ATTESTED_GLOBS, EXPECTED_EXCLUDE_GLOBS,
         EXPECTED_ENTRYPOINTS, REQUIRED_FORBIDDEN_PATHS;
    ListingOfTexts(pf, Get(policy, "runtimeGlobs"));
    ListingOfTexts(pf, Get(policy, "attestedGlobs"));
    ListingOfTexts(pf, Get(policy, "excludeGlobs"));
  }

  // ------------------------------------------------------------------ headers, environment, lock

  ghost predicate PolicyHeadConforms(policy: Dict) {
    && HasExactly(Obj(policy), POLICY_KEYS) && Get(policy, "schema") == Str("release.policy.v1")
    && Get(policy, "productVersion") == Str(PRODUCT_VERSION) && Get(policy, "runtimeMode") == Str(MODE)
    && Get(policy, "releasePythonVersion") == Str(PYTHON_VERSION) && SameDict(Get(policy, "rules"), EXPECTED_POLICY_RULES)
  }

  lemma ConstantsAreText()
    ensures PRODUCT_VERSION != "" && MODE != "" && PYTHON_VERSION != ""
  {
    assert |PRODUCT_VERSION| == 6 && |MODE| > 0 && |PYTHON_VERSION| == 6;
  }

  lemma HeadersAgree(pf: Platform, root: Files, plan: Plan, probe: Probe, commit: string)
    requires Faithful(pf)
    ensures var m := ManifestFor(pf, root, plan, probe, commit);
            ManifestHeaderOk(m) && PolicyHeaderOk(m, plan.policy) <==> PolicyHeadConforms(plan.policy)
  {
    hide ManifestFor, Faithful, Get, MANIFEST_KEYS, POLICY_KEYS, EXPECTED_POLICY_RULES, SameDict, PRODUCT_VERSION, MODE, PYTHON_VERSION, StrOrEmpty,
         HEAD_KEYS, TABLE_KEYS, BINDING_KEYS, HeadFields, TableFields, BindingFields;
    HeadSays(pf, root, plan, probe, commit);
    FieldLayers(pf, root, plan, probe, commit);
    StrIsFaithful(pf, PRODUCT_VERSION);
    StrIsFaithful(pf, MODE);
    ConstantsAreText();
  }

  lemma EnvironmentAgrees(probe: Probe)
    requires IsPrefixedSha(Str(probe.freezeHash))
    ensures EnvironmentOk(Obj(map["pythonVersion" := Str(probe.version), "pipFreezeHash" := Str(probe.freezeHash)])) <==> probe.version == PYTHON_VERSION
  {
    hide IsPrefixedSha, PYTHON_VERSION;
    EnvironmentFields(probe);
    hide BUILD_ENVIRONMENT_KEYS;
  }

  lemma PlainSources()
    ensures LOCK_PATH != MANIFEST_PATH && POLICY_PATH != MANIFEST_PATH
    ensures !(EVIDENCE_ROOT <= LOCK_PATH) && !(EVIDENCE_ROOT <= POLICY_PATH)
  {
    assert LOCK_PATH[2] == 'q' && MANIFEST_PATH[2] == 'l' && POLICY_PATH[8] == 'r' && POLICY_PATH[16] == 'p' && MANIFEST_PATH[16] == 'm';
    assert EVIDENCE_ROOT[2] == 'l' && EVIDENCE_ROOT[8] == 'a';
  }

  /** A source other than the manifest is staged as it was, and nothing else stands under its path. */
  lemma StagedSource(root: Files, plan: Plan, bytes: Bytes, staging: Files, path: string)
    requires IsStaging(root[MANIFEST_PATH := bytes], Sources(plan), plan.evidence, bytes, staging)
    requires path != MANIFEST_PATH && !(EVIDENCE_ROOT <= path)
    ensures path in staging <==> path in Sources(plan)
    ensures path in staging ==> path in root && staging[path] == root[path]
  {
    hide MANIFEST_PATH, EVIDENCE_ROOT;
  }

  lemma LockFields(pf: Platform, data: Bytes)
    requires Faithful(pf)
    ensures var lock := Obj(map["path" := Str(LOCK_PATH), "sha256" := Str(pf.hex(data)), "format" := Str("pip-exact-pins-v1")]);
            && HasExactly(lock, DEPENDENCY_LOCK_KEYS) && Get(DictOf(lock), "path") == Str(LOCK_PATH)
            && Get(DictOf(lock), "sha256") == Str(pf.hex(data)) && IsSha(Str(pf.hex(data))) && Get(DictOf(lock), "format") == Str("pip-exact-pins-v1")
  {
    hide IsHexDigit, LOCK_PATH;
    assert IsHex64(pf.hex(data));
  }

  lemma LockAgrees(pf: Platform, root: Files, plan: Plan, bytes: Bytes, staging: Files)
    requires Faithful(pf) && IsStaging(root[MANIFEST_PATH := bytes], Sources(plan), plan.evidence, bytes, staging)
    ensures LOCK_PATH in Sources(plan) <==>
              LockOk(pf, staging, Obj(map["path" := Str(LOCK_PATH), "sha256" := Str(pf.hex(DataOf(root, LOCK_PATH))), "format" := Str("pip-exact-pins-v1")]))
  {
    LockFields(pf, DataOf(root, LOCK_PATH));
    PlainSources();
    StagedSource(root, plan, bytes, staging, LOCK_PATH);
    hide Faithful, IsStaging, HasExactly, IsHex64, Get, LOCK_PATH, MANIFEST_PATH, EVIDENCE_ROOT, DEPENDENCY_LOCK_KEYS, Sources;
  }

  // ------------------------------------------------------------------ tables

  lemma AscendingDiffers(paths: seq<string>)
    requires Ascending(paths, Less)
    ensures forall i, j | 0 <= i < j < |paths| :: paths[i] != paths[j]
  {
    forall i, j | 0 <= i < j < |paths| ensures paths[i] != paths[j] { LessIrreflexive(paths[i]); }
  }

  /** One of the two source tables, when it does not list the manifest. */
  lemma SourceTable(pf: Platform, root: Files, plan: Plan, bytes: Bytes, staging: Files, paths: seq<string>, before: set<string>)
    requires Faithful(pf) && IsStaging(root[MANIFEST_PATH := bytes], Sources(plan), plan.evidence, bytes, staging)
    requires SafeNames(root.Keys) && Ascending(paths, Less) && paths != [] && MANIFEST_PATH !in Elements(paths)
    requires Elements(paths) <= Sources(plan) && Elements(paths) <= root.Keys
    ensures EntriesOk(pf, staging, Arr(EntriesFor(pf, root, paths)), before) <==> Elements(paths) !! before
  {
    hide Less, Faithful, SafeMemberName, MANIFEST_PATH, EVIDENCE_ROOT, EntryFor, EntriesOk;
    AscendingDiffers(paths);
    forall p | p in paths ensures SafeMemberName(p) == Ok(p) && p in root && p in staging && staging[p] == root[p] {
      assert p in Elements(paths);
      assert p in Sources(plan) && p != MANIFEST_PATH;
    }
    WrittenTable(pf, root, staging, paths, before);
  }

  lemma EvidenceTable(pf: Platform, root: Files, plan: Plan, bytes: Bytes, staging: Files, before: set<string>)
    requires Faithful(pf) && IsStaging(root, Sources(plan), plan.evidence, bytes, staging)
    requires SafeNames(EvidenceKeys(plan.evidence)) && plan.evidence != map[]
    ensures EntriesOk(pf, staging, Arr(EvidenceEntries(pf, plan.evidence)), before) <==> EvidenceKeys(plan.evidence) !! before
  {
    hide Faithful, SafeMemberName, MANIFEST_PATH, EVIDENCE_ROOT, EntryFor, EntriesOk, EntriesFor, PlacedNames, Placed, EvidenceEntries;
    PlacedIs(pf, plan.evidence);
    var names := PlacedNames(plan.evidence);
    forall p | p in names ensures SafeMemberName(p) == Ok(p) && p in Placed(plan.evidence) && p in staging && staging[p] == Placed(plan.evidence)[p] {
      assert p in EvidenceKeys(plan.evidence) by { assert p in Elements(names); }
      var name :| name in plan.evidence && p == EVIDENCE_ROOT + name;
    }
    var some :| some in plan.evidence;
    assert EVIDENCE_ROOT + some in Elements(names);
    WrittenTable(pf, Placed(plan.evidence), staging, names, before);
  }

  lemma TablesAgree(pf: Platform, root: Files, plan: Plan, m: Dict, bytes: Bytes, staging: Files)
    requires Faithful(pf) && IsStaging(root[MANIFEST_PATH := bytes], Sources(plan), plan.evidence, bytes, staging)
    requires SafeNames(root.Keys) && SafeNames(EvidenceKeys(plan.evidence)) && plan.evidence != map[] && Sources(plan) !! EvidenceKeys(plan.evidence)
    requires Ascending(plan.runtime, Less) && Ascending(plan.attested, Less) && plan.runtime != [] && plan.attested != []
    requires Sources(plan) <= root.Keys && MANIFEST_PATH !in Sources(plan)
    requires Get(m, "runtimeFiles") == Arr(EntriesFor(pf, root, plan.runtime)) && Get(m, "attestedFiles") == Arr(EntriesFor(pf, root, plan.attested))
    requires Get(m, "testEvidenceFiles") == Arr(EvidenceEntries(pf, plan.evidence))
    ensures TablesOk(pf, staging, m) <==> Elements(plan.runtime) !! Elements(plan.attested)
  {
    hide Faithful, IsStaging, SafeNames, Less, Ascending, Get, EntriesFor, EvidenceEntries, EntriesOk, MANIFEST_PATH, EVIDENCE_ROOT, EvidenceKeys, PathsIn;
    GeneratedPaths(pf, root, plan, m);
    SourceTable(pf, root, plan, bytes, staging, plan.runtime, {});
    SourceTable(pf, root, plan, bytes, staging, plan.attested, Elements(plan.runtime));
    EvidenceTable(pf, root[MANIFEST_PATH := bytes], plan, bytes, staging, Elements(plan.runtime) + Elements(plan.attested));
  }

  // ------------------------------------------------------------------ agreement

  /** When the verifier accepts what the generator made of a plan. */
  ghost predicate Conforming(pf: Platform, glob: (string, string) -> bool, plan: Plan) {
    && PolicyHeadConforms(plan.policy) && PolicyListsOk(plan.policy)
    && ListedInOrder(plan.policy, "allowedEntrypoints") && ListedInOrder(plan.policy, "forbiddenPaths")
    && POLICY_PATH in Sources(plan) && LOCK_PATH in Sources(plan)
    && Elements(plan.runtime) !! Elements(plan.attested) && KeptApart(glob, plan.policy, plan)
    && AllAbsent(Sources(plan) + EvidenceKeys(plan.evidence) + {MANIFEST_PATH}, TextsOf(Get(plan.policy, "forbiddenPaths")))
    && Loaded(pf, plan.evidence, "production-runtime-verification.json").Some?
    && StrictLists(Loaded(pf, plan.evidence, "production-runtime-verification.json").value)
  }

  /** A bundle as the generator leaves it: the plan was made, the manifest sealed, everything staged. */
  ghost predicate Generated(pf: Platform, glob: (string, string) -> bool, root: Files, commit: string, evidence: Files, probe: Probe,
                            plan: Plan, staging: Files) {
    var bytes := pf.render(Obj(ManifestFor(pf, root, plan, probe, commit)));
    && Planned(pf, glob, root, commit, evidence, Some(probe)) == Ok(plan)
    && Fits(Sources(plan), EvidenceKeys(plan.evidence))
    && IsStaging(root[MANIFEST_PATH := bytes], Sources(plan), plan.evidence, bytes, staging)
  }

  /** What a successful plan guarantees. */
  ghost predicate PlanFacts(pf: Platform, glob: (string, string) -> bool, root: Files, commit: string, probe: Probe, plan: Plan) {
    && IsCommit(Str(commit)) && IsPrefixedSha(Str(probe.freezeHash)) && PolicyIn(pf, root) == Some(plan.policy)
    && probe.version == VersionOf(pf, plan.policy) && probe.version != "" && Iterable(pf, plan.policy)
    && plan.runtime == SortText(RuntimeSelection(pf, glob, root, plan.policy))
    && plan.attested == SortText(AttestedSelection(pf, glob, root, plan.policy))
    && PlanOk(pf, root, commit, probe, plan)
  }

  lemma PlannedFacts(pf: Platform, glob: (string, string) -> bool, root: Files, commit: string, evidence: Files, probe: Probe, plan: Plan)
    requires Planned(pf, glob, root, commit, evidence, Some(probe)) == Ok(plan)
    ensures PlanFacts(pf, glob, root, commit, probe, plan)
  {
    hide PlanOk, SealedEvidence, IsHex64, IsHexDigit, RuntimeSelection, AttestedSelection, Listing, StrOrEmpty;
    assert "3.11." <= probe.version;
    assert |probe.version| >= 5;
  }

  /** What the pieces of the verdict on a generated bundle come to. */
  lemma PiecesAgree(pf: Platform, glob: (string, string) -> bool, root: Files, commit: string, probe: Probe, plan: Plan, staging: Files, bytes: Bytes)
    requires Faithful(pf) && PlanFacts(pf, glob, root, commit, probe, plan) && Fits(Sources(plan), EvidenceKeys(plan.evidence))
    requires IsStaging(root[MANIFEST_PATH := bytes], Sources(plan), plan.evidence, bytes, staging)
    requires SafeNames(root.Keys) && SafeNames(EvidenceKeys(plan.evidence))
    ensures var m := ManifestFor(pf, root, plan, probe, commit);
            && (ManifestHeaderOk(m) && PolicyHeaderOk(m, plan.policy) <==> PolicyHeadConforms(plan.policy))
            && SealOk(pf, m)
            && (LockOk(pf, staging, Get(m, "dependencyLock")) <==> LOCK_PATH in Sources(plan))
            && (EnvironmentOk(Get(m, "buildEnvironment")) <==> probe.version == PYTHON_VERSION)
            && TestRunOk(pf, Get(m, "testEvidenceFiles"), Get(m, "testRunHash"))
  {
    hide Faithful, IsStaging, SafeMemberName, Iterable, RuntimeSelection, AttestedSelection, SortText, ManifestHeaderOk, PolicyHeaderOk, PolicyHeadConforms,
         SealOk, LockOk, EnvironmentOk, TestRunOk, ManifestFor, Get, EvidenceBinds, IsCommit, IsPrefixedSha, EVIDENCE_ROOT, MANIFEST_PATH, LOCK_PATH,
         PYTHON_VERSION, EvidenceEntries, RunHash, PlacedNames, Placed, EntriesFor, EvidenceKeys, Fits, REQUIRED_EVIDENCE_PATHS, VersionOf, PolicyIn, Sources;
    HeadersAgree(pf, root, plan, probe, commit);
    GeneratedIsSealed(pf, root, plan, probe, commit);
    TablesSay(pf, root, plan, probe, commit);
    BindingsSay(pf, root, plan, probe, commit);
    LockAgrees(pf, root, plan, bytes, staging);
    EnvironmentAgrees(probe);
    EvidenceRunAgrees(pf, plan.evidence);
  }

  lemma EvidenceRunAgrees(pf: Platform, evidence: Files)
    requires Faithful(pf) && FloorMet(evidence) && SafeNames(EvidenceKeys(evidence))
    ensures TestRunOk(pf, Arr(EvidenceEntries(pf, evidence)), Str(RunHash(pf, EvidenceEntries(pf, evidence)))) && evidence != map[]
  {
    hide Faithful, EvidenceEntries, RunHash, PlacedNames, Placed, EntriesFor, EVIDENCE_ROOT, TestRunOk;
    PlacedIs(pf, evidence);
    RequiredNames(evidence);
    hide FloorMet;
    var names := PlacedNames(evidence);
    assert EVIDENCE_ROOT + "pip-freeze.txt" in EvidenceKeys(evidence);
    assert EVIDENCE_ROOT + "pip-freeze.txt" in Elements(names);
    forall p | p in names ensures p != "" {
      assert p in Elements(names);
      assert SafeMemberName(p) == Ok(p);
    }
    TestRunAgrees(pf, Placed(evidence), names);
  }

  lemma SelectionsExist(pf: Platform, glob: (string, string) -> bool, root: Files, commit: string, probe: Probe, plan: Plan)
    requires PlanFacts(pf, glob, root, commit, probe, plan)
    ensures Sources(plan) <= root.Keys && MANIFEST_PATH !in Elements(plan.runtime)
    ensures Ascending(plan.runtime, Less) && Ascending(plan.attested, Less) && plan.runtime != [] && plan.attested != []
    ensures Elements(plan.runtime) == RuntimeSelection(pf, glob, root, plan.policy)
    ensures Elements(plan.attested) == AttestedSelection(pf, glob, root, plan.policy)
  {
    hide Less, Listing, AnyMatch, EvidenceBinds, FloorMet, MANIFEST_PATH, IsHexDigit, VersionOf, PolicyIn, Get;
  }

  /** Lists and sets, once the policy's own lists are in order. */
  lemma ListsAndSetsAgree(pf: Platform, glob: (string, string) -> bool, root: Files, commit: string, probe: Probe, plan: Plan, m: Dict, staging: Files)
    requires Faithful(pf) && PlanFacts(pf, glob, root, commit, probe, plan) && Fits(Sources(plan), EvidenceKeys(plan.evidence))
    requires staging.Keys == Sources(plan) + EvidenceKeys(plan.evidence) + {MANIFEST_PATH}
    requires m == ManifestFor(pf, root, plan, probe, commit) && PolicyListsOk(plan.policy)
    ensures ManifestListsOk(m, plan.policy) <==> ListedInOrder(plan.policy, "allowedEntrypoints") && ListedInOrder(plan.policy, "forbiddenPaths")
    ensures SetsOk(glob, staging, m, plan.policy) <==> KeptApart(glob, plan.policy, plan)
  {
    hide Faithful, PolicyListsOk, ManifestListsOk, ListedInOrder, SetsOk, KeptApart, Listing, TextsOf, Get, Less, Ascending, Selected, EvidenceKeys,
         MANIFEST_PATH, ManifestFor, EntriesFor, EvidenceEntries, ListedTexts, Coexist, PlanOk, IsHexDigit, PathsIn, VersionOf, PolicyIn, IsCommit,
         IsPrefixedSha, SortText;
    TablesSay(pf, root, plan, probe, commit);
    SelectionsExist(pf, glob, root, commit, probe, plan);
    PolicyListings(pf, plan.policy);
    ListsAgree(pf, m, plan.policy);
    GeneratedPaths(pf, root, plan, m);
    SetsAgree(pf, glob, root, plan, m, plan.policy, staging);
  }

  /** The tables, once no source is the manifest itself; and the evidence. */
  lemma TablesAndEvidenceAgree(pf: Platform, glob: (string, string) -> bool, root: Files, commit: string, probe: Probe, plan: Plan, m: Dict,
                               bytes: Bytes, staging: Files)
    requires Faithful(pf) && PlanFacts(pf, glob, root, commit, probe, plan) && Fits(Sources(plan), EvidenceKeys(plan.evidence))
    requires IsStaging(root[MANIFEST_PATH := bytes], Sources(plan), plan.evidence, bytes, staging)
    requires SafeNames(root.Keys) && SafeNames(EvidenceKeys(plan.evidence)) && m == ManifestFor(pf, root, plan, probe, commit)
    ensures MANIFEST_PATH !in Elements(plan.attested) ==> (TablesOk(pf, staging, m) <==> Elements(plan.runtime) !! Elements(plan.attested))
    ensures Loaded(pf, plan.evidence, "production-runtime-verification.json").Some?
    ensures EvidenceOk(pf, staging, m) <==> StrictLists(Loaded(pf, plan.evidence, "production-runtime-verification.json").value)
  {
    hide Faithful, IsStaging, SafeMemberName, Less, Ascending, Get, EntriesFor, EvidenceEntries, MANIFEST_PATH, EVIDENCE_ROOT, EvidenceKeys, ManifestFor,
         TablesOk, EvidenceOk, StrictLists, Loaded, EvidenceBinds, FloorMet, RunHash, TestRunOk, ListedTexts, SourceDigest, AttestedDigest, Coexist,
         IsCommit, IsPrefixedSha, VersionOf, PolicyIn, Iterable, RuntimeSelection, AttestedSelection, SortText, LOCK_PATH, EXPECTED_VERIFICATION_CONTRACT, StrOrEmpty;
    TablesSay(pf, root, plan, probe, commit);
    HeadSays(pf, root, plan, probe, commit);
    BindingsSay(pf, root, plan, probe, commit);
    SelectionsExist(pf, glob, root, commit, probe, plan);
    AttestedPathsAreText(root, plan);
    CommitIsText(commit, probe);
    EvidenceRunAgrees(pf, plan.evidence);
    AttestedDigestAgrees(pf, root, plan.attested);
    EvidenceAgrees(pf, root[MANIFEST_PATH := bytes], Sources(plan), plan, probe, commit, m, staging, bytes, SourceDigest(pf, root, plan.attested));
    if MANIFEST_PATH !in Elements(plan.attested) {
      TablesAgree(pf, root, plan, m, bytes, staging);
    }
  }

  lemma AttestedPathsAreText(root: Files, plan: Plan)
    requires SafeNames(root.Keys) && Sources(plan) <= root.Keys
    ensures forall p | p in plan.attested :: p != ""
  {
    forall p | p in plan.attested ensures p != "" {
      assert p in Elements(plan.attested);
      assert SafeMemberName(p) == Ok(p);
    }
  }

  lemma CommitIsText(commit: string, probe: Probe)
    requires IsCommit(Str(commit)) && IsPrefixedSha(Str(probe.freezeHash))
    ensures commit != "" && probe.freezeHash != ""
  {
    hide IsHexDigit;
  }

  lemma AcceptableExactly(pf: Platform, glob: (string, string) -> bool, root: Files, commit: string, probe: Probe, plan: Plan, m: Dict,
                          bytes: Bytes, staging: Files)
    requires Faithful(pf) && PlanFacts(pf, glob, root, commit, probe, plan) && Fits(Sources(plan), EvidenceKeys(plan.evidence))
    requires IsStaging(root[MANIFEST_PATH := bytes], Sources(plan), plan.evidence, bytes, staging)
    requires SafeNames(root.Keys) && SafeNames(EvidenceKeys(plan.evidence)) && m == ManifestFor(pf, root, plan, probe, commit)
    ensures Acceptable(pf, glob, staging, m, plan.policy) && POLICY_PATH in Sources(plan) <==> Conforming(pf, glob, plan)
  {
    hide Faithful, PlanFacts, Fits,  SafeNames, ManifestFor, ManifestHeaderOk, PolicyHeaderOk, PolicyListsOk, SealOk, LockOk, EnvironmentOk,
         TablesOk, TestRunOk, EvidenceOk, AllAbsent, SetsOk, PolicyHeadConforms, ListedInOrder, KeptApart, StrictLists, Loaded, Get, TextsOf, Sources,
         EvidenceKeys, MANIFEST_PATH, POLICY_PATH, LOCK_PATH, PYTHON_VERSION, IsTextList, EXPECTED_ENTRYPOINTS;
    assert staging.Keys == Sources(plan) + EvidenceKeys(plan.evidence) + {MANIFEST_PATH};
    hide IsStaging;
    PiecesAgree(pf, glob, root, commit, probe, plan, staging, bytes);
    TablesAndEvidenceAgree(pf, glob, root, commit, probe, plan, m, bytes, staging);
    VersionConforms(pf, glob, root, commit, probe, plan);
    KeptApartSays(glob, plan);
    if PolicyListsOk(plan.policy) { ListsAndSetsAgree(pf, glob, root, commit, probe, plan, m, staging); }
  }

  lemma VersionConforms(pf: Platform, glob: (string, string) -> bool, root: Files, commit: string, probe: Probe, plan: Plan)
    requires Faithful(pf) && PlanFacts(pf, glob, root, commit, probe, plan)
    ensures PolicyHeadConforms(plan.policy) ==> probe.version == PYTHON_VERSION
  {
    hide PlanOk, Iterable, RuntimeSelection, AttestedSelection, IsHexDigit, Faithful, SortText, PolicyIn, POLICY_KEYS, EXPECTED_POLICY_RULES, SameDict;
    StrIsFaithful(pf, PYTHON_VERSION);
    ConstantsAreText();
    hide PYTHON_VERSION;
  }

  lemma KeptApartSays(glob: (string, string) -> bool, plan: Plan)
    ensures KeptApart(glob, plan.policy, plan) ==> MANIFEST_PATH !in Elements(plan.attested)
  {
    hide MANIFEST_PATH, Unselected, OutsideEvidence;
  }

  lemma StagedDocuments(pf: Platform, root: Files, plan: Plan, m: Dict, staging: Files)
    requires Faithful(pf) && PolicyIn(pf, root) == Some(plan.policy)
    requires IsStaging(root[MANIFEST_PATH := pf.render(Obj(m))], Sources(plan), plan.evidence, pf.render(Obj(m)), staging)
    ensures ManifestOf(pf, staging) == Some(m)
    ensures PolicyOf(pf, staging) == Some(if POLICY_PATH in Sources(plan) then plan.policy else map[])
  {
    PlainSources();
    StagedSource(root, plan, pf.render(Obj(m)), staging, POLICY_PATH);
    assert pf.parse(pf.render(Obj(m))) == Some(Obj(m));
    hide MANIFEST_PATH, POLICY_PATH, EVIDENCE_ROOT, EvidenceKeys;
  }

  lemma NoPolicyNoVerdict(m: Dict)
    ensures !PolicyHeaderOk(m, map[])
  {
    assert "schema" in POLICY_KEYS;
    hide EXPECTED_POLICY_RULES, SameDict;
  }

  /** Generator and verifier agree: a generated bundle is accepted exactly when it is conforming. */
  lemma GeneratedIsAcceptedExactly(pf: Platform, glob: (string, string) -> bool, root: Files, commit: string, evidence: Files, probe: Probe,
                                   plan: Plan, staging: Files)
    requires Faithful(pf) && Generated(pf, glob, root, commit, evidence, probe, plan, staging)
    requires SafeNames(root.Keys) && SafeNames(EvidenceKeys(plan.evidence))
    ensures (exists m, policy :: Accepts(pf, glob, staging, m, policy)) <==> Conforming(pf, glob, plan)
  {
    hide Faithful, Planned, PlanFacts, Fits, IsStaging, SafeNames, ManifestFor, Acceptable, Conforming, Sources, EvidenceKeys, ManifestOf, PolicyOf,
         MANIFEST_PATH, POLICY_PATH, PolicyHeaderOk;
    var m := ManifestFor(pf, root, plan, probe, commit);
    PlannedFacts(pf, glob, root, commit, evidence, probe, plan);
    PlanKnowsPolicy(pf, glob, root, commit, probe, plan);
    StagedDocuments(pf, root, plan, m, staging);
    AcceptableExactly(pf, glob, root, commit, probe, plan, m, pf.render(Obj(m)), staging);
    AcceptableNeedsPolicy(pf, glob, staging, m);
    if Conforming(pf, glob, plan) {
      assert Accepts(pf, glob, staging, m, plan.policy);
    }
  }

  lemma PlanKnowsPolicy(pf: Platform, glob: (string, string) -> bool, root: Files, commit: string, probe: Probe, plan: Plan)
    requires PlanFacts(pf, glob, root, commit, probe, plan)
    ensures PolicyIn(pf, root) == Some(plan.policy)
  {
    hide PlanOk, Iterable, RuntimeSelection, AttestedSelection, IsHexDigit, SortText, PolicyIn, VersionOf;
  }

  lemma AcceptableNeedsPolicy(pf: Platform, glob: (string, string) -> bool, files: Files, m: Dict)
    ensures !Acceptable(pf, glob, files, m, map[])
  {
    hide ManifestHeaderOk, PolicyHeaderOk, PolicyListsOk, ManifestListsOk, SealOk, LockOk, EnvironmentOk, TablesOk, TestRunOk, EvidenceOk, AllAbsent,
         SetsOk, Get, TextsOf;
    NoPolicyNoVerdict(m);
  }

  const PRODUCTION_REPORT := "production-runtime-verification.json"

  /** The evidence with `missing` set to null in the report on the production runtime. */
  function WithNullList(pf: Platform, evidence: Files, d: Dict): Files {
    evidence[PRODUCTION_REPORT := pf.render(Obj(d["missing" := Null]))]
  }

  lemma NullListBinds(pf: Platform, evidence: Files, d: Dict, commit: string, version: string, freeze: string, digest: string)
    requires Faithful(pf) && EvidenceBinds(pf, evidence, commit, version, freeze, digest)
    requires Loaded(pf, evidence, PRODUCTION_REPORT) == Some(d)
    ensures EvidenceBinds(pf, WithNullList(pf, evidence, d), commit, version, freeze, digest)
    ensures Loaded(pf, WithNullList(pf, evidence, d), PRODUCTION_REPORT) == Some(d["missing" := Null])
  {
    hide AttestationOk, PythonOk, Sha, IsHex64;
    var later := WithNullList(pf, evidence, d);
    assert pf.parse(pf.render(Obj(d["missing" := Null]))) == Some(Obj(d["missing" := Null]));
    NamesDiffer();
    assert Loaded(pf, later, "test-attestation.json") == Loaded(pf, evidence, "test-attestation.json");
    assert Loaded(pf, later, "python-runtime.json") == Loaded(pf, evidence, "python-runtime.json");
  }

  lemma NamesDiffer()
    ensures PRODUCTION_REPORT !in {"test-attestation.json", "python-runtime.json", "pip-freeze.txt", "attested-files.sha256"}
  {
    assert |PRODUCTION_REPORT| == 36 && |"test-attestation.json"| == 21 && |"python-runtime.json"| == 19;
    assert |"pip-freeze.txt"| == 14 && |"attested-files.sha256"| == 21;
  }

  lemma SealedWithNullList(pf: Platform, evidence: Files, probe: Probe, d: Dict)
    ensures SealedEvidence(pf, WithNullList(pf, evidence, d), probe) == WithNullList(pf, SealedEvidence(pf, evidence, probe), d)
  {
    hide PythonRuntime;
    NamesDiffer();
  }

  lemma NullListIsPlanned(pf: Platform, glob: (string, string) -> bool, root: Files, commit: string, evidence: Files, probe: Probe, plan: Plan, d: Dict)
    requires Faithful(pf) && Planned(pf, glob, root, commit, evidence, Some(probe)) == Ok(plan)
    requires Loaded(pf, plan.evidence, PRODUCTION_REPORT) == Some(d) && pf.render(Obj(d["missing" := Null])) != []
    ensures Planned(pf, glob, root, commit, WithNullList(pf, evidence, d), Some(probe)) == Ok(plan.(evidence := WithNullList(pf, plan.evidence, d)))
    ensures WithNullList(pf, plan.evidence, d).Keys == plan.evidence.Keys
  {
    hide Faithful, EvidenceBinds, SealedEvidence, Iterable, RuntimeSelection, AttestedSelection, IsPatchOf311, VersionOf, PolicyIn, IsCommit, ProbeOk,
         Loaded, SourceDigest, Listing, SortText, WithNullList;
    SealedWithNullList(pf, evidence, probe, d);
    assert plan.evidence == SealedEvidence(pf, evidence, probe);
    NullListBinds(pf, plan.evidence, d, commit, probe.version, probe.freezeHash, SourceDigest(pf, root, plan.attested));
    FloorStays(pf, plan.evidence, d);
  }

  lemma FloorStays(pf: Platform, evidence: Files, d: Dict)
    requires FloorMet(evidence) && pf.render(Obj(d["missing" := Null])) != []
    ensures FloorMet(WithNullList(pf, evidence, d)) && WithNullList(pf, evidence, d).Keys == evidence.Keys
  {
    assert REQUIRED_EVIDENCE_PATHS[4] == PRODUCTION_REPORT || PRODUCTION_REPORT in REQUIRED_EVIDENCE_PATHS;
  }

  /** The gap made concrete: beside every generated bundle there is another one that the generator
      produces without complaint and the verifier refuses; its report says `null` for the list of
      missing packages. (Printed JSON is not empty.) */
  lemma NullListIsRefused(pf: Platform, glob: (string, string) -> bool, root: Files, commit: string, evidence: Files, probe: Probe,
                          plan: Plan, staging: Files)
      returns (evidence': Files, plan': Plan, staging': Files)
    requires Faithful(pf) && Generated(pf, glob, root, commit, evidence, probe, plan, staging) && forall j :: pf.render(j) != []
    requires SafeNames(root.Keys) && SafeNames(EvidenceKeys(plan.evidence))
    ensures evidence'.Keys == evidence.Keys && forall name | name in evidence && name != PRODUCTION_REPORT :: evidence'[name] == evidence[name]
    ensures Generated(pf, glob, root, commit, evidence', probe, plan', staging')
    ensures !exists m, policy :: Accepts(pf, glob, staging', m, policy)
  {
    hide Faithful, Planned, Fits, SafeNames, ManifestFor, Sources, Accepts, Conforming, IsStaging, WithNullList;
    var d := ReportOf(pf, glob, root, commit, evidence, probe, plan);
    evidence' := WithNullList(pf, evidence, d);
    plan' := plan.(evidence := WithNullList(pf, plan.evidence, d));
    NullListIsPlanned(pf, glob, root, commit, evidence, probe, plan, d);
    OnlyTheReport(pf, evidence, d);
    var bytes := pf.render(Obj(ManifestFor(pf, root, plan, probe, commit)));
    var bytes' := pf.render(Obj(ManifestFor(pf, root, plan', probe, commit)));
    SourcesStay(plan, plan');
    staging' := Restage(root, plan, bytes, bytes', plan'.evidence, staging);
    NotConforming(pf, glob, root, commit, plan, plan', d, probe);
    assert EvidenceKeys(plan'.evidence) == EvidenceKeys(plan.evidence);
    GeneratedIsAcceptedExactly(pf, glob, root, commit, evidence', probe, plan', staging');
  }

  lemma PlanEvidence(pf: Platform, glob: (string, string) -> bool, root: Files, commit: string, evidence: Files, probe: Probe, plan: Plan)
    requires Planned(pf, glob, root, commit, evidence, Some(probe)) == Ok(plan)
    ensures plan.evidence == SealedEvidence(pf, evidence, probe)
    ensures EvidenceBinds(pf, plan.evidence, commit, probe.version, probe.freezeHash, SourceDigest(pf, root, plan.attested))
  {
    hide EvidenceBinds, SealedEvidence, Iterable, RuntimeSelection, AttestedSelection, IsPatchOf311, VersionOf, PolicyIn, IsCommit, ProbeOk,
         SourceDigest, Listing, SortText, FloorMet;
  }

  lemma BoundReport(pf: Platform, evidence: Files, commit: string, version: string, freeze: string, digest: string)
    requires EvidenceBinds(pf, evidence, commit, version, freeze, digest)
    ensures Loaded(pf, evidence, PRODUCTION_REPORT).Some? && PRODUCTION_REPORT in evidence
  {
    hide AttestationOk, ProductionLoose, PythonOk, Sha;
  }

  lemma ReportOf(pf: Platform, glob: (string, string) -> bool, root: Files, commit: string, evidence: Files, probe: Probe, plan: Plan) returns (d: Dict)
    requires Planned(pf, glob, root, commit, evidence, Some(probe)) == Ok(plan)
    ensures Loaded(pf, plan.evidence, PRODUCTION_REPORT) == Some(d) && PRODUCTION_REPORT in evidence
  {
    hide Planned, EvidenceBinds, Loaded, PythonRuntime, SourceDigest;
    PlanEvidence(pf, glob, root, commit, evidence, probe, plan);
    BoundReport(pf, plan.evidence, commit, probe.version, probe.freezeHash, SourceDigest(pf, root, plan.attested));
    d := Loaded(pf, plan.evidence, PRODUCTION_REPORT).value;
    NamesDiffer();
  }

  lemma OnlyTheReport(pf: Platform, evidence: Files, d: Dict)
    requires PRODUCTION_REPORT in evidence
    ensures WithNullList(pf, evidence, d).Keys == evidence.Keys
    ensures forall name | name in evidence && name != PRODUCTION_REPORT :: WithNullList(pf, evidence, d)[name] == evidence[name]
  {
  }

  lemma SourcesStay(plan: Plan, plan': Plan)
    requires plan'.runtime == plan.runtime && plan'.attested == plan.attested && plan'.evidence.Keys == plan.evidence.Keys
    ensures Sources(plan') == Sources(plan) && EvidenceKeys(plan'.evidence) == EvidenceKeys(plan.evidence)
  {
  }

  /** Another staging directory with the same paths: other evidence, and the manifest for it. */
  lemma Restage(root: Files, plan: Plan, bytes: Bytes, bytes': Bytes, evidence': Files, staging: Files) returns (staging': Files)
    requires IsStaging(root[MANIFEST_PATH := bytes], Sources(plan), plan.evidence, bytes, staging) && evidence'.Keys == plan.evidence.Keys
    requires Fits(Sources(plan), EvidenceKeys(plan.evidence))
    ensures IsStaging(root[MANIFEST_PATH := bytes'], Sources(plan), evidence', bytes', staging')
  {
    hide Sources, Coexist;
    var sources := Sources(plan);
    staging' := map p | p in staging :: if p == MANIFEST_PATH then bytes' else if p in sources then staging[p] else DataOf(evidence', NameUnder(p));
    forall name | name in evidence' ensures EVIDENCE_ROOT + name in staging' && staging'[EVIDENCE_ROOT + name] == evidence'[name] {
      EvidenceIsNotManifest(name);
      assert EVIDENCE_ROOT + name in EvidenceKeys(plan.evidence);
      assert NameUnder(EVIDENCE_ROOT + name) == name;
    }
  }

  /** The name below the attestation directory. */
  function NameUnder(p: string): string {
    if |EVIDENCE_ROOT| <= |p| then p[|EVIDENCE_ROOT|..] else ""
  }

  lemma NotConforming(pf: Platform, glob: (string, string) -> bool, root: Files, commit: string, plan: Plan, plan': Plan, d: Dict, probe: Probe)
    requires Faithful(pf) && plan'.evidence == WithNullList(pf, plan.evidence, d)
    ensures !Conforming(pf, glob, plan')
  {
    hide PolicyHeadConforms, PolicyListsOk, ListedInOrder, KeptApart, AllAbsent, Sources, EvidenceKeys, IsHex64, TextsOf;
    assert pf.parse(pf.render(Obj(d["missing" := Null]))) == Some(Obj(d["missing" := Null]));
    assert Loaded(pf, plan'.evidence, PRODUCTION_REPORT) == Some(d["missing" := Null]);
    assert Get(d["missing" := Null], "missing") == Null;
  }
}
