/** What an accepted release bundle is: its tables and its files determine each other. */
module ReleaseTheorems {
  import opened Json
  import opened Platform
  import opened Wrappers
  import opened PosixPath
  import opened ReleaseVerifier

  ghost predicate AllDifferent(entries: seq<Json>) {
    forall i, j | 0 <= i < j < |entries| :: RawPath(entries[i]) != RawPath(entries[j])
  }

  /** The one loop over a table means: all entries in order, no path twice, none taken before. */
  lemma {:induction false} EntriesCleanExactly(pf: Platform, files: Files, entries: seq<Json>, before: set<string>)
    ensures EntriesClean(pf, files, entries, before) <==>
              (forall e | e in entries :: EntryOk(pf, files, e)) && AllDifferent(entries) && RawPaths(entries) !! before
  {
    hide EntryOk, RawPath;
    if entries != [] {
      var n := |entries| - 1;
      EntriesCleanExactly(pf, files, entries[..n], before);
      assert entries == entries[..n] + [entries[n]] && entries[n] in entries;
      assert RawPaths(entries) == RawPaths(entries[..n]) + {RawPath(entries[n])};
      DifferentStep(entries);
    }
  }

  lemma DifferentStep(entries: seq<Json>)
    requires entries != []
    ensures var n := |entries| - 1;
            AllDifferent(entries) <==> AllDifferent(entries[..n]) && RawPath(entries[n]) !in RawPaths(entries[..n])
  {
    hide RawPath;
    var n := |entries| - 1;
    if AllDifferent(entries) {
      forall e | e in entries[..n] ensures RawPath(e) != RawPath(entries[n]) { var i :| 0 <= i < n && entries[i] == e; }
    }
    if AllDifferent(entries[..n]) && RawPath(entries[n]) !in RawPaths(entries[..n]) {
      forall i, j | 0 <= i < j < |entries| ensures RawPath(entries[i]) != RawPath(entries[j]) {
        assert entries[i] == entries[..n][i] && entries[i] in entries[..n];
        if j < n { assert entries[j] == entries[..n][j]; }
      }
    }
  }

  lemma {:induction false} DifferentSize(entries: seq<Json>)
    requires AllDifferent(entries)
    ensures |RawPaths(entries)| == |entries|
  {
    hide RawPath;
    if entries != [] {
      var n := |entries| - 1;
      DifferentStep(entries);
      DifferentSize(entries[..n]);
      assert entries == entries[..n] + [entries[n]];
      assert RawPaths(entries) == RawPaths(entries[..n]) + {RawPath(entries[n])};
    }
  }

  /** A table in which every entry names its own file, with that file's size and hash. */
  ghost predicate Describes(pf: Platform, files: Files, entries: seq<Json>) {
    && |RawPaths(entries)| == |entries|
    && forall e | e in entries ::
         RawPath(e) in files && e.Obj? && Get(e.fields, "size") == Num(|files[RawPath(e)]|) && Get(e.fields, "sha256") == Str(pf.hex(files[RawPath(e)]))
  }

  lemma TableDescribes(pf: Platform, files: Files, j: Json, before: set<string>)
    requires EntriesOk(pf, files, j, before) && PathsIn(j) <= files.Keys
    requires forall p | p in files :: SafeMemberName(p) == Ok(p)
    ensures Describes(pf, files, j.items) && PathsIn(j) !! before
  {
    hide SafeMemberName, RawPath, IsHex64, FILE_ENTRY_KEYS;
    EntriesCleanExactly(pf, files, j.items, before);
    DifferentSize(j.items);
    forall e | e in j.items
      ensures RawPath(e) in files && e.Obj? && Get(e.fields, "size") == Num(|files[RawPath(e)]|) && Get(e.fields, "sha256") == Str(pf.hex(files[RawPath(e)]))
    {
      assert EntryOk(pf, files, e);
      assert RawPath(e) in PathsIn(j);
    }
  }

  // ------------------------------------------------------------------ forbidden paths

  /** A file under this name, or one below it. */
  ghost predicate Occurs(files: set<string>, name: string) {
    name in files || exists p :: p in files && name + "/" <= p
  }

  lemma ExistsExactly(files: set<string>, name: string)
    ensures Exists(files, name) <==> name == "." || Occurs(files, name)
  {
    hide Above;
    forall p ensures Above(name, p) <==> name + "/" <= p { AboveExactly(name, p); }
  }

  /** The path names a place inside the bundle, and neither that place nor anything below it is a file. */
  ghost predicate Gone(files: set<string>, raw: string) {
    && SafeMemberName(raw).Ok? && SafeMemberName(raw).value != "."
    && SafeMemberName(raw).value !in files && forall p | p in files :: !(SafeMemberName(raw).value + "/" <= p)
  }

  /** A listed path is in the way exactly if its name is safe and something occurs under it. */
  lemma PresentExactly(files: set<string>, raw: string)
    ensures Present(files, raw) <==>
              SafeMemberName(raw).Ok? && (SafeMemberName(raw).value == "." || Occurs(files, SafeMemberName(raw).value))
    ensures Absent(files, raw) <==> Gone(files, raw)
  {
    hide SafeMemberName;
    if SafeMemberName(raw).Ok? { ExistsExactly(files, SafeMemberName(raw).value); }
  }

  // ------------------------------------------------------------------ exact contents

  /** Exact release contents: the three tables are free of duplicates and pairwise disjoint, they are
      exactly what the policy selects on disk and what lies below the attestation directory, every
      entry matches its file, no forbidden path exists, and the root hash seals the manifest. */
  ghost predicate Exact(pf: Platform, glob: (string, string) -> bool, files: Files, m: Dict, policy: Dict) {
    var runtime, attested, evidence := Get(m, "runtimeFiles"), Get(m, "attestedFiles"), Get(m, "testEvidenceFiles");
    && runtime.Arr? && attested.Arr? && evidence.Arr?
    && Describes(pf, files, runtime.items) && Describes(pf, files, attested.items) && Describes(pf, files, evidence.items)
    && PathsIn(attested) !! PathsIn(runtime) && PathsIn(evidence) !! PathsIn(runtime) + PathsIn(attested)
    && SetsOk(glob, files, m, policy)
    && (forall raw | raw in TextsOf(Get(policy, "forbiddenPaths")) :: Gone(files.Keys, raw))
    && Get(m, "releaseHash") == Str(RootHash(pf, Canonical(pf, m)))
  }

  lemma ExactContents(pf: Platform, glob: (string, string) -> bool, files: Files, m: Dict, policy: Dict)
    requires Accepts(pf, glob, files, m, policy) && forall p | p in files :: SafeMemberName(p) == Ok(p)
    ensures Exact(pf, glob, files, m, policy)
  {
    hide ManifestHeaderOk, PolicyHeaderOk, PolicyListsOk, SealOk, LockOk, EnvironmentOk, TestRunOk, EvidenceOk, SafeMemberName, EntriesOk, Describes,
         Absent, Gone, PathsIn, TextsOf, Get, ManifestOf, PolicyOf, PolicyPaths, EvidencePaths, IsTextList, REQUIRED_FORBIDDEN_PATHS, EXPECTED_ENTRYPOINTS,
         RootHash, Canonical;
    var runtime, attested := Get(m, "runtimeFiles"), Get(m, "attestedFiles");
    SelectedExist(glob, files, m, policy);
    TablesAreLists(pf, files, m);
    TableDescribes(pf, files, runtime, {});
    TableDescribes(pf, files, attested, PathsIn(runtime));
    TableDescribes(pf, files, Get(m, "testEvidenceFiles"), PathsIn(runtime) + PathsIn(attested));
    SealSays(pf, m);
    forall raw | raw in TextsOf(Get(policy, "forbiddenPaths")) ensures Gone(files.Keys, raw) {
      assert Absent(files.Keys, raw);
      PresentExactly(files.Keys, raw);
    }
  }

  lemma SealSays(pf: Platform, m: Dict)
    requires SealOk(pf, m)
    ensures Get(m, "releaseHash") == Str(RootHash(pf, Canonical(pf, m)))
  {
    hide RootHash, Canonical, IsCommit, SameDict, HasExactly, Get, Sha, EXPECTED_VERIFICATION_CONTRACT;
  }

  lemma TablesAreLists(pf: Platform, files: Files, m: Dict)
    requires TablesOk(pf, files, m)
    ensures Get(m, "runtimeFiles").Arr? && Get(m, "attestedFiles").Arr? && Get(m, "testEvidenceFiles").Arr?
  {
    hide Get;
  }

  lemma SelectedExist(glob: (string, string) -> bool, files: Files, m: Dict, policy: Dict)
    requires SetsOk(glob, files, m, policy)
    ensures PathsIn(Get(m, "runtimeFiles")) <= files.Keys && PathsIn(Get(m, "attestedFiles")) <= files.Keys
    ensures PathsIn(Get(m, "testEvidenceFiles")) <= files.Keys
  {
    hide PathsIn, Get, TextsOf;
  }

  // ------------------------------------------------------------------ the release hash

  /** The canonical forms of two manifests, with the schema in front, collide. */
  ghost predicate RootsCollide(pf: Platform, m: Dict, n: Dict) {
    Collides(pf, pf.utf8(SCHEMA) + [0] + Canonical(pf, m), pf.utf8(SCHEMA) + [0] + Canonical(pf, n))
  }

  lemma SameRootSameManifest(pf: Platform, m: Dict, n: Dict)
    requires CanonIsInjective(pf) && RootHash(pf, Canonical(pf, m)) == RootHash(pf, Canonical(pf, n))
    ensures RootsCollide(pf, m, n) || m - {"manifestHash", "releaseHash"} == n - {"manifestHash", "releaseHash"}
  {
    var head := pf.utf8(SCHEMA) + [0];
    ShaSame(pf, head + Canonical(pf, m), head + Canonical(pf, n));
    if head + Canonical(pf, m) == head + Canonical(pf, n) {
      assert Canonical(pf, m) == (head + Canonical(pf, m))[|head|..] == (head + Canonical(pf, n))[|head|..] == Canonical(pf, n);
    }
  }

  lemma SameBesideHashes(m: Dict, n: Dict, key: string)
    requires m - {"manifestHash", "releaseHash"} == n - {"manifestHash", "releaseHash"} && key != "manifestHash" && key != "releaseHash"
    ensures Get(m, key) == Get(n, key)
  {
    var x, y := m - {"manifestHash", "releaseHash"}, n - {"manifestHash", "releaseHash"};
    assert (key in m <==> key in x) && (key in n <==> key in y);
    assert key in m ==> x[key] == m[key];
    assert key in n ==> y[key] == n[key];
  }

  lemma SameTableSameFiles(pf: Platform, a: Files, b: Files, entries: seq<Json>)
    requires Describes(pf, a, entries) && Describes(pf, b, entries)
    ensures forall p | p in RawPaths(entries) :: p in a && p in b && (a[p] == b[p] || Collides(pf, a[p], b[p]))
  {
    hide RawPath;
    forall p | p in RawPaths(entries) ensures p in a && p in b && (a[p] == b[p] || Collides(pf, a[p], b[p])) {
      var e :| e in entries && RawPath(e) == p;
      assert pf.hex(a[p]) == pf.hex(b[p]);
    }
  }

  /** One release hash, one release: two exact bundles with the same release hash list the same
      runtime, attested and evidence files, with the same bytes: unless the two manifests, or the two
      versions of a file, are a hash collision. */
  lemma ReleaseHashBinds(pf: Platform, glob: (string, string) -> bool, a: Files, b: Files,
                         m: Dict, n: Dict, policyA: Dict, policyB: Dict, table: string)
    requires CanonIsInjective(pf) && Exact(pf, glob, a, m, policyA) && Exact(pf, glob, b, n, policyB)
    requires Get(m, "releaseHash") == Get(n, "releaseHash")
    requires table in {"runtimeFiles", "attestedFiles", "testEvidenceFiles"}
    ensures
      || RootsCollide(pf, m, n)
      || (PathsIn(Get(m, table)) == PathsIn(Get(n, table)) &&
          forall p | p in PathsIn(Get(m, table)) :: p in a && p in b && (a[p] == b[p] || Collides(pf, a[p], b[p])))
  {
    hide Collides, CanonIsInjective, Describes, SetsOk, Gone, RootHash, Canonical, RawPath;
    SameRootSameManifest(pf, m, n);
    if !RootsCollide(pf, m, n) {
      SameBesideHashes(m, n, table);
      SameTableSameFiles(pf, a, b, Get(m, table).items);
    }
  }
}
