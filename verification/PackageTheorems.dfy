/** What builder and verifier guarantee about each other: an archive is read back as it was staged,
    an accepted manifest binds every member, and the three stages accept exactly what they should. */
module PackageTheorems {
  import opened Sorting
  import opened TextOrder
  import opened Json
  import opened Platform
  import opened Wrappers
  import opened PosixPath
  import opened LineageText
  import opened LineageCompiler
  import opened RuntimePackage

  // ------------------------------------------------------------------ manifest binding

  /** Two sets of files agree on a name as far as hashes can tell. */
  ghost predicate SameFile(pf: Platform, a: Stage, b: Stage, name: string) {
    name in a && name in b && a[name].mode == b[name].mode && Sha(pf, a[name].data) == Sha(pf, b[name].data)
  }

  lemma {:induction false} SameRecordsSameFiles(pf: Platform, a: Stage, b: Stage, raws: seq<Json>)
    requires CheckRecords(pf, a, raws).Ok? && CheckRecords(pf, b, raws).Ok?
    ensures CheckRecords(pf, a, raws).value.names == CheckRecords(pf, b, raws).value.names
    ensures forall name | name in CheckRecords(pf, a, raws).value.names && name != MANIFEST_PATH :: SameFile(pf, a, b, name)
  {
    hide ReadRecord, SafeMemberName;
    if raws != [] { SameRecordsSameFiles(pf, a, b, raws[..|raws| - 1]); }
  }

  /** The canonical forms of two manifests collide. */
  ghost predicate ManifestsCollide(pf: Platform, m: Dict, n: Dict) {
    Collides(pf, pf.canon(Obj(m - {"manifestHash"})), pf.canon(Obj(n - {"manifestHash"})))
  }

  /** Two accepted archives with the same manifest hash have the same members, and every member but
      the manifest itself has the same mode and the same bytes: unless the two manifests, or the two
      versions of that member, are a hash collision. */
  lemma ManifestBinding(pf: Platform, a: seq<Member>, b: seq<Member>, forA: string, forB: string)
    requires CanonIsInjective(pf) && Verified(pf, a, forA).Ok? && Verified(pf, b, forB).Ok?
    requires DeclaredHash(pf, Verified(pf, a, forA).value.manifest) == DeclaredHash(pf, Verified(pf, b, forB).value.manifest)
    ensures
      || ManifestsCollide(pf, Verified(pf, a, forA).value.manifest, Verified(pf, b, forB).value.manifest)
      || var x, y := Verified(pf, a, forA).value.files, Verified(pf, b, forB).value.files;
         && x.Keys == y.Keys
         && forall name | name in x && name != MANIFEST_PATH ::
              x[name].mode == y[name].mode && (x[name].data == y[name].data || Collides(pf, x[name].data, y[name].data))
  {
    hide ReadMembers, CheckRecords, TotalsAccepted, LineageAccepted, ParseObject, Collides, Sha, CanonIsInjective, HashOf;
    var m, n := Verified(pf, a, forA).value.manifest, Verified(pf, b, forB).value.manifest;
    var x, y := Verified(pf, a, forA).value.files, Verified(pf, b, forB).value.files;
    HashSame(pf, Obj(m - {"manifestHash"}), Obj(n - {"manifestHash"}));
    if !ManifestsCollide(pf, m, n) {
      assert m - {"manifestHash"} == n - {"manifestHash"};
      SameButHash(m, n, "runtimeFiles");
      SameButHash(m, n, "evidenceFiles");
      SameRecordsSameFiles(pf, x, y, DeclaredRecords(m));
      forall name | name in x && name != MANIFEST_PATH
        ensures x[name].mode == y[name].mode && (x[name].data == y[name].data || Collides(pf, x[name].data, y[name].data)) {
        assert SameFile(pf, x, y, name);
        ShaSame(pf, x[name].data, y[name].data);
      }
    }
  }

  lemma SameButHash(m: Dict, n: Dict, key: string)
    requires m - {"manifestHash"} == n - {"manifestHash"} && key != "manifestHash"
    ensures Get(m, key) == Get(n, key)
  {
    assert key in m <==> key in m - {"manifestHash"};
    assert key in n <==> key in n - {"manifestHash"};
    if key in m { assert (m - {"manifestHash"})[key] == m[key] && (n - {"manifestHash"})[key] == n[key]; }
  }

  // ------------------------------------------------------------------ an archive is read back as staged

  function Restricted(stage: Stage, names: seq<string>): Stage {
    map name | name in names && name in stage :: stage[name]
  }

  lemma {:induction false} ReadBack(stage: Stage, names: seq<string>)
    requires Coexist(stage.Keys) && SafeNames(stage.Keys) && Pairwise(names)
    requires forall name | name in names :: name in stage || name in AllDirs(stage.Keys)
    ensures ReadMembers(MembersAt(stage, names)) == Ok(Restricted(stage, names))
  {
    hide SafeMemberName, DirsOf, Restricted, AllDirs, Coexist, ReadMember, MemberAt;
    if names == [] {
      assert names == [];
      RestrictedToNothing(stage);
    } else {
      var n := |names| - 1;
      assert names[n] in names && forall name | name in names[..n] :: name in names;
      ReadBack(stage, names[..n]);
      assert MembersAt(stage, names)[..n] == MembersAt(stage, names[..n]);
      assert names[n] !in names[..n];
      ReadOne(stage, names[..n], names[n]);
      assert names == names[..n] + [names[n]];
    }
  }

  lemma RestrictedToNothing(stage: Stage)
    ensures Restricted(stage, []) == map[]
  {
  }

  /** One member of an archive: a staged file is added, a directory passed over. */
  lemma ReadOne(stage: Stage, names: seq<string>, name: string)
    requires Coexist(stage.Keys) && SafeNames(stage.Keys) && name !in names
    requires name in stage || name in AllDirs(stage.Keys)
    ensures ReadMember(Restricted(stage, names), MemberAt(stage, name)) == Ok(Restricted(stage, names + [name]))
  {
    hide SafeMemberName, DirsOf, Above;
    if name in stage {
      assert Restricted(stage, names + [name]) == Restricted(stage, names)[name := stage[name]];
    } else {
      var p :| p in stage && name in DirsOf(p);
      DirIsSafe(p, name);
      assert Restricted(stage, names + [name]) == Restricted(stage, names);
    }
  }

  /** The verifier sees exactly the staged files. */
  lemma ArchiveRoundTrip(stage: Stage)
    requires Coexist(stage.Keys) && SafeNames(stage.Keys)
    ensures ReadMembers(Archive(stage)) == Ok(stage)
  {
    hide Less, SortText, AllDirs, SafeNames, Coexist;
    var names := SortText(stage.Keys + AllDirs(stage.Keys));
    AscendingIsPairwise(names);
    forall name | name in names ensures name in stage || name in AllDirs(stage.Keys) { assert name in Elements(names); }
    ReadBack(stage, names);
    forall name | name in stage ensures name in names { assert name in Elements(names); }
    assert Restricted(stage, names) == stage;
  }

  // ------------------------------------------------------------------ records the builder wrote

  function PathSet(records: seq<Record>): set<string> {
    set r | r in records :: r.path
  }

  ghost predicate DistinctPaths(records: seq<Record>) {
    forall i, j | 0 <= i < j < |records| :: records[i].path != records[j].path
  }

  lemma ReadWrittenRecord(pf: Platform, r: Record)
    requires Faithful(pf)
    ensures ReadRecord(pf, RecordJson(r)) == Ok(r)
  {
    var d := RecordJson(r).fields;
    assert d["path"] == Str(r.path) && d["sha256"] == Str(r.sha256) && d["size"] == Num(r.size) && d["mode"] == Str(r.mode);
  }

  /** Records written by the builder are accepted when their paths are distinct, none is the
      manifest's, and the files match: and only then. */
  lemma {:induction false} WrittenRecordsAccepted(pf: Platform, files: Stage, records: seq<Record>)
    requires Faithful(pf) && forall r | r in records :: SafeMemberName(r.path) == Ok(r.path)
    ensures CheckRecords(pf, files, RecordsJson(records)).Ok? <==>
              DistinctPaths(records) && MANIFEST_PATH !in PathSet(records) && AllMatch(pf, files, records)
    ensures CheckRecords(pf, files, RecordsJson(records)).Ok? ==>
              CheckRecords(pf, files, RecordsJson(records)).value == Checked({MANIFEST_PATH} + PathSet(records), records)
  {
    hide SafeMemberName, Matches, ReadRecord, RecordJson, Faithful, DistinctPaths, PathSet, AllMatch;
    if records == [] {
      NoRecords(pf, files);
    } else {
      var n := |records| - 1;
      assert records[n] in records && forall r | r in records[..n] :: r in records;
      WrittenRecordsAccepted(pf, files, records[..n]);
      ReadWrittenRecord(pf, records[n]);
      assert RecordsJson(records)[..n] == RecordsJson(records[..n]);
      DistinctStep(records);
      RecordStep(pf, files, records);
    }
  }

  ghost predicate AllMatch(pf: Platform, files: Stage, records: seq<Record>) {
    forall r | r in records :: Matches(pf, files, r.path, r)
  }

  lemma NoRecords(pf: Platform, files: Stage)
    ensures DistinctPaths([]) && PathSet([]) == {} && AllMatch(pf, files, [])
  {
  }

  lemma RecordStep(pf: Platform, files: Stage, records: seq<Record>)
    requires records != []
    ensures var n := |records| - 1;
            && PathSet(records) == PathSet(records[..n]) + {records[n].path}
            && (AllMatch(pf, files, records) <==> AllMatch(pf, files, records[..n]) && Matches(pf, files, records[n].path, records[n]))
  {
    hide Matches;
    var n := |records| - 1;
    assert records == records[..n] + [records[n]] && records[n] in records;
  }

  lemma DistinctStep(records: seq<Record>)
    requires records != []
    ensures var n := |records| - 1;
            DistinctPaths(records) <==> DistinctPaths(records[..n]) && records[n].path !in PathSet(records[..n])
  {
    var n := |records| - 1;
    if DistinctPaths(records[..n]) && records[n].path !in PathSet(records[..n]) {
      forall i | 0 <= i < n ensures records[i].path != records[n].path { assert records[..n][i].path in PathSet(records[..n]); }
      forall i, j | 0 <= i < j < n ensures records[i].path != records[j].path {
        assert records[..n][i].path != records[..n][j].path;
      }
    }
    if DistinctPaths(records) {
      forall r | r in records[..n] ensures r.path != records[n].path { var i :| 0 <= i < n && records[i] == r; }
    }
  }

  // ------------------------------------------------------------------ what copying leaves behind

  /** The file at a path; an empty one where there is none. */
  function FileAt(t: Tree, p: string): Staged {
    if p in t.files then Staged(t.files[p].data, ModeOf(t.files[p])) else Staged([], "0644")
  }

  /** What `CopyRuntime` leaves of each listed file. */
  function StagedOf(t: Tree, paths: seq<string>): Stage {
    map p | p in paths :: FileAt(t, p)
  }

  function RuntimeRecords(pf: Platform, t: Tree, paths: seq<string>): seq<Record> {
    seq(|paths|, k requires 0 <= k < |paths| => RecordOf(pf, paths[k], FileAt(t, paths[k]).data, FileAt(t, paths[k]).mode))
  }

  ghost predicate HashesMatch(pf: Platform, t: Tree, hashes: map<string, string>, paths: seq<string>) {
    forall p | p in paths :: p in t.files && p in hashes && Sha(pf, t.files[p].data) == "sha256:" + hashes[p]
  }

  /** The runtime copy succeeds exactly when every file is there with the listed hash and no two of
      them are in each other's way; it then stages just these files. */
  lemma {:induction false} CopyRuntimeExactly(pf: Platform, t: Tree, hashes: map<string, string>, paths: seq<string>)
    ensures CopyRuntime(pf, t, hashes, paths).Ok? <==> HashesMatch(pf, t, hashes, paths) && Coexist(Elements(paths))
    ensures CopyRuntime(pf, t, hashes, paths).Ok? ==>
              CopyRuntime(pf, t, hashes, paths).value == Copied(StagedOf(t, paths), RuntimeRecords(pf, t, paths))
  {
    hide Sha, Blocked, Coexist, HashesMatch, StagedOf, RuntimeRecords;
    if paths == [] {
      NothingCollides();
      assert StagedOf(t, paths) == map[] by { NothingIsStaged(pf, t, hashes); }
      assert HashesMatch(pf, t, hashes, paths) && RuntimeRecords(pf, t, paths) == [] by { NothingIsStaged(pf, t, hashes); }
    } else {
      var n := |paths| - 1;
      CopyRuntimeExactly(pf, t, hashes, paths[..n]);
      CoexistStep(paths);
      CopyStep(pf, t, hashes, paths);
    }
  }

  lemma NothingIsStaged(pf: Platform, t: Tree, hashes: map<string, string>)
    ensures StagedOf(t, []) == map[] && HashesMatch(pf, t, hashes, []) && RuntimeRecords(pf, t, []) == []
  {
  }

  lemma CopyStep(pf: Platform, t: Tree, hashes: map<string, string>, paths: seq<string>)
    requires paths != []
    ensures var n := |paths| - 1;
            var p := paths[n];
            && (HashesMatch(pf, t, hashes, paths) <==>
                  HashesMatch(pf, t, hashes, paths[..n]) && p in t.files && p in hashes && Sha(pf, t.files[p].data) == "sha256:" + hashes[p])
            && (Blocked(StagedOf(t, paths[..n]), p) <==> exists q :: q in Elements(paths[..n]) && (Above(q, p) || Above(p, q)))
            && StagedOf(t, paths) == StagedOf(t, paths[..n])[p := FileAt(t, p)]
            && RuntimeRecords(pf, t, paths) == RuntimeRecords(pf, t, paths[..n]) + [RecordOf(pf, p, FileAt(t, p).data, FileAt(t, p).mode)]
  {
    hide Above, Sha;
    var n := |paths| - 1;
    assert paths == paths[..n] + [paths[n]];
    assert StagedOf(t, paths[..n]).Keys == Elements(paths[..n]);
  }

  lemma NothingCollides()
    ensures Coexist(Elements([]))
  {
  }

  lemma CoexistStep(paths: seq<string>)
    requires paths != []
    ensures var n := |paths| - 1;
            Coexist(Elements(paths)) <==>
              Coexist(Elements(paths[..n])) && forall q | q in Elements(paths[..n]) :: !Above(q, paths[n]) && !Above(paths[n], q)
  {
    var n := |paths| - 1;
    assert paths == paths[..n] + [paths[n]];
    assert Elements(paths) == Elements(paths[..n]) + {paths[n]};
  }

  function EvidencePaths(names: seq<string>): set<string> {
    set name | name in names :: EVIDENCE_ROOT + name
  }

  function DataAt(dir: map<string, Bytes>, name: string): Bytes {
    if name in dir then dir[name] else []
  }

  function EvidenceRecords(pf: Platform, dir: map<string, Bytes>, names: seq<string>): seq<Record> {
    seq(|names|, k requires 0 <= k < |names| => RecordOf(pf, EVIDENCE_ROOT + names[k], DataAt(dir, names[k]), "0644"))
  }

  /** The stage after some evidence files were copied over it. */
  ghost predicate EvidenceStaged(stage: Stage, dir: map<string, Bytes>, names: seq<string>, after: Stage) {
    && after.Keys == stage.Keys + EvidencePaths(names)
    && (forall name | name in names :: name in dir && after[EVIDENCE_ROOT + name] == Staged(dir[name], "0644"))
    && (forall p | p in stage && p !in EvidencePaths(names) :: after[p] == stage[p])
  }

  /** The evidence copy succeeds exactly when every file is there and nothing staged is in the way. */
  lemma {:induction false} CopyEvidenceExactly(pf: Platform, dir: map<string, Bytes>, stage: Stage, names: seq<string>)
    requires forall name | name in names :: '/' !in name
    ensures CopyEvidence(pf, dir, stage, names).Ok? <==>
              (forall name | name in names :: name in dir && !Blocked(stage, EVIDENCE_ROOT + name))
    ensures CopyEvidence(pf, dir, stage, names).Ok? ==>
              && EvidenceStaged(stage, dir, names, CopyEvidence(pf, dir, stage, names).value.stage)
              && CopyEvidence(pf, dir, stage, names).value.records == EvidenceRecords(pf, dir, names)
  {
    hide Sha, Blocked, EvidenceStaged;
    if names == [] {
      NothingStaged(stage, dir);
    } else {
      var n := |names| - 1;
      var name := names[n];
      CopyEvidenceExactly(pf, dir, stage, names[..n]);
      assert names == names[..n] + [name] && name in names;
      var before := CopyEvidence(pf, dir, stage, names[..n]);
      if before.Ok? {
        BlockedByStage(stage, dir, names[..n], before.value.stage, name);
        if name in dir && !Blocked(stage, EVIDENCE_ROOT + name) {
          OneMoreStaged(stage, dir, names[..n], before.value.stage, name);
          assert EvidenceRecords(pf, dir, names) == EvidenceRecords(pf, dir, names[..n]) + [RecordOf(pf, EVIDENCE_ROOT + name, DataAt(dir, name), "0644")];
        }
      }
    }
  }

  lemma NothingStaged(stage: Stage, dir: map<string, Bytes>)
    ensures EvidenceStaged(stage, dir, [], stage)
  {
    assert EvidencePaths([]) == {};
  }

  lemma EvidencePathsStep(names: seq<string>, name: string)
    ensures EvidencePaths(names + [name]) == EvidencePaths(names) + {EVIDENCE_ROOT + name}
    ensures forall other | other in names :: EVIDENCE_ROOT + other in EvidencePaths(names)
  {
  }

  lemma OneMoreStaged(stage: Stage, dir: map<string, Bytes>, names: seq<string>, after: Stage, name: string)
    requires EvidenceStaged(stage, dir, names, after) && name in dir
    ensures EvidenceStaged(stage, dir, names + [name], after[EVIDENCE_ROOT + name := Staged(dir[name], "0644")])
  {
    EvidencePathsStep(names, name);
    hide EvidencePaths;
    forall other | other in names && EVIDENCE_ROOT + other == EVIDENCE_ROOT + name ensures other == name {
      assert other == (EVIDENCE_ROOT + other)[|EVIDENCE_ROOT|..] && name == (EVIDENCE_ROOT + name)[|EVIDENCE_ROOT|..];
    }
  }

  /** Evidence files never stand in each other's way. */
  lemma BlockedByStage(stage: Stage, dir: map<string, Bytes>, names: seq<string>, after: Stage, name: string)
    requires EvidenceStaged(stage, dir, names, after) && '/' !in name && forall other | other in names :: '/' !in other
    ensures Blocked(after, EVIDENCE_ROOT + name) <==> Blocked(stage, EVIDENCE_ROOT + name)
  {
    hide Above;
    forall other | other in names
      ensures !Above(EVIDENCE_ROOT + other, EVIDENCE_ROOT + name) && !Above(EVIDENCE_ROOT + name, EVIDENCE_ROOT + other) {
      SiblingsCoexist(EVIDENCE_ROOT, other, name);
      SiblingsCoexist(EVIDENCE_ROOT, name, other);
    }
  }

  lemma SiblingsCoexist(root: string, a: string, b: string)
    requires '/' !in b
    ensures !Above(root + a, root + b)
  {
    if |a| < |b| {
      assert (root + b)[|root + a|] == b[|a|] && b[|a|] in b;
    }
  }
}
