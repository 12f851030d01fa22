/** What the archive verifier accepts, told in terms of the archive alone: its members, the fields of the
    manifest and of the two embedded documents. Nothing here uses the checks of the verifier. */
module ArchiveContract {
  import opened Sorting
  import opened TextOrder
  import opened Json
  import opened Platform
  import opened Wrappers
  import opened PosixPath
  import opened RuntimePackage

  const MANIFEST_MEMBER := "release/" + "competition-runtime-manifest.json"

  // ------------------------------------------------------------------ names

  /** The part is the whole path, or stands between slashes. */
  ghost predicate HasComponent(path: string, part: string) {
    || path == part
    || (exists after :: path == part + "/" + after)
    || (exists before :: path == before + "/" + part)
    || exists before, after :: path == before + "/" + part + "/" + after
  }

  lemma {:induction false} JoinAt(parts: seq<string>, k: nat)
    requires k < |parts|
    ensures Join(parts) == (if k == 0 then "" else Join(parts[..k]) + "/") + parts[k] + (if k + 1 == |parts| then "" else "/" + Join(parts[k + 1..]))
  {
    if k > 0 {
      JoinAt(parts[1..], k - 1);
      assert parts[1..][..k - 1] == parts[..k][1..] && parts[1..][k..] == parts[k + 1..];
      if k == 1 { assert parts[..1] == [parts[0]]; }
    }
  }

  lemma ComponentsAre(path: string, part: string)
    requires '/' !in part
    ensures part in Split(path) <==> HasComponent(path, part)
  {
    hide Split, Join;
    SplitPlain(part);
    if part in Split(path) { ComponentIsPlaced(path, part); }
    if after :| path == part + "/" + after { SplitAtSlash(part, after); }
    if before :| path == before + "/" + part { SplitAtSlash(before, part); }
    if before, after :| path == before + "/" + part + "/" + after {
      assert path == before + "/" + (part + "/" + after);
      SplitAtSlash(before, part + "/" + after);
      SplitAtSlash(part, after);
    }
  }

  lemma ComponentIsPlaced(path: string, part: string)
    requires part in Split(path)
    ensures HasComponent(path, part)
  {
    hide Split, Join, HasComponent;
    var parts := Split(path);
    var k :| 0 <= k < |parts| && parts[k] == part;
    JoinSplit(path);
    JoinAt(parts, k);
    Placed(path, part, k > 0, Join(parts[..k]), k + 1 < |parts|, Join(parts[k + 1..]));
  }

  lemma Placed(path: string, part: string, left: bool, before: string, right: bool, after: string)
    requires path == (if left then before + "/" else "") + part + (if right then "/" + after else "")
    ensures HasComponent(path, part)
  {
    assert left && right ==> path == before + "/" + part + "/" + after;
    assert !left && right ==> path == part + "/" + after;
    assert left && !right ==> path == before + "/" + part;
  }

  /** Exactly which member names are safe. */
  lemma SafeNameExactly(raw: string)
    ensures SafeMemberName(raw).Ok? <==> raw != "" && raw[0] != '/' && !HasComponent(raw, "..")
  {
    ComponentsAre(raw, "..");
    KeepContains(Split(raw), "..");
  }

  // ------------------------------------------------------------------ members

  ghost predicate MemberOk(m: Member) {
    SafeMemberName(m.name).Ok? && (m.kind == RegularFile || m.kind == Directory)
  }

  /** The file that a regular member stands for. */
  ghost predicate Gives(m: Member, name: string, file: Staged) {
    m.kind == RegularFile && SafeMemberName(m.name) == Ok(name) && file == Staged(m.data, m.mode)
  }

  /** The members are files and directories under safe names, no file twice, and `files` are the files. */
  ghost predicate Holds(members: seq<Member>, files: Stage) {
    && (forall k | 0 <= k < |members| :: MemberOk(members[k]))
    && (forall j, k | 0 <= j < k < |members| && members[j].kind == RegularFile && members[k].kind == RegularFile ::
          SafeMemberName(members[j].name) != SafeMemberName(members[k].name))
    && (forall name | name in files :: exists k :: 0 <= k < |members| && Gives(members[k], name, files[name]))
    && forall k | 0 <= k < |members| && members[k].kind == RegularFile ::
         SafeMemberName(members[k].name).value in files
  }

  lemma HoldsOne(members: seq<Member>, a: Stage, b: Stage)
    requires Holds(members, a) && Holds(members, b)
    ensures a == b
  {
    hide SafeMemberName;
    forall name | name in a ensures name in b && a[name] == b[name] { SameGiven(members, a, b, name); }
    forall name | name in b ensures name in a { SameGiven(members, b, a, name); }
  }

  lemma SameGiven(members: seq<Member>, a: Stage, b: Stage, name: string)
    requires Holds(members, a) && Holds(members, b) && name in a
    ensures name in b && a[name] == b[name]
  {
    hide SafeMemberName;
    var k :| 0 <= k < |members| && Gives(members[k], name, a[name]);
    assert name in b;
    var j :| 0 <= j < |members| && Gives(members[j], name, b[name]);
    assert j == k;
  }

  lemma {:induction false} MembersReadExactly(members: seq<Member>)
    ensures ReadMembers(members).Ok? ==> Holds(members, ReadMembers(members).value)
    ensures forall files :: Holds(members, files) ==> ReadMembers(members).Ok?
  {
    hide SafeMemberName, ReadMember;
    if members != [] {
      var n := |members| - 1;
      MembersReadExactly(members[..n]);
      forall files | Holds(members, files) ensures ReadMembers(members).Ok? {
        HoldsFront(members, files);
        LastReads(members, files);
      }
      if ReadMembers(members).Ok? { LastHolds(members); }
    }
  }

  /** The files of all members but the last. */
  function Front(members: seq<Member>, files: Stage): Stage
    requires members != []
  {
    var m := members[|members| - 1];
    if m.kind == RegularFile && SafeMemberName(m.name).Ok? then files - {SafeMemberName(m.name).value} else files
  }

  lemma HoldsFront(members: seq<Member>, files: Stage)
    requires members != [] && Holds(members, files)
    ensures Holds(members[..|members| - 1], Front(members, files))
  {
    hide SafeMemberName;
    var n := |members| - 1;
    var front := Front(members, files);
    assert MemberOk(members[n]);
    forall name | name in front ensures exists k :: 0 <= k < n && Gives(members[..n][k], name, front[name]) {
      var k :| 0 <= k < |members| && Gives(members[k], name, files[name]);
      assert k < n;
      assert members[..n][k] == members[k];
    }
  }

  lemma LastReads(members: seq<Member>, files: Stage)
    requires members != [] && Holds(members, files) && ReadMembers(members[..|members| - 1]).Ok?
    requires Holds(members[..|members| - 1], Front(members, files))
    requires Holds(members[..|members| - 1], ReadMembers(members[..|members| - 1]).value)
    ensures ReadMembers(members).Ok?
  {
    hide SafeMemberName, Holds;
    HoldsOne(members[..|members| - 1], Front(members, files), ReadMembers(members[..|members| - 1]).value);
    assert MemberOk(members[|members| - 1]) by { AllOk(members, files, |members| - 1); }
  }

  lemma AllOk(members: seq<Member>, files: Stage, k: nat)
    requires Holds(members, files) && k < |members|
    ensures MemberOk(members[k])
  {
  }

  lemma LastHolds(members: seq<Member>)
    requires members != [] && ReadMembers(members).Ok?
    requires Holds(members[..|members| - 1], ReadMembers(members[..|members| - 1]).value)
    ensures Holds(members, ReadMembers(members).value)
  {
    hide SafeMemberName, Holds, Gives, ReadMember;
    var front, files := ReadMembers(members[..|members| - 1]).value, ReadMembers(members).value;
    LastIsOk(members, front, files);
    hide ReadMembers;
    HoldsMore(members, front, files);
  }

  lemma HoldsMore(members: seq<Member>, front: Stage, files: Stage)
    requires members != [] && Holds(members[..|members| - 1], front)
    requires var m := members[|members| - 1];
             && MemberOk(m)
             && (m.kind == RegularFile ==> SafeMemberName(m.name).value !in front && files == front[SafeMemberName(m.name).value := Staged(m.data, m.mode)])
             && (m.kind != RegularFile ==> files == front)
    ensures Holds(members, files)
  {
    hide SafeMemberName, Gives, Holds;
    var n := |members| - 1;
    forall k | 0 <= k < |members| ensures MemberOk(members[k]) {
      if k < n { AllOk(members[..n], front, k); assert members[..n][k] == members[k]; }
    }
    forall name | name in files ensures exists k :: 0 <= k < |members| && Gives(members[k], name, files[name]) {
      GivenBy(members, front, files, name);
    }
    forall j, k | 0 <= j < k < |members| && members[j].kind == RegularFile && members[k].kind == RegularFile
      ensures SafeMemberName(members[j].name) != SafeMemberName(members[k].name) {
      if k < n { FrontDiffers(members, front, j, k); } else { FrontHas(members, front, j); }
    }
    forall k | 0 <= k < |members| && members[k].kind == RegularFile ensures SafeMemberName(members[k].name).Ok? && SafeMemberName(members[k].name).value in files {
      if k < n { FrontHas(members, front, k); }
    }
    HoldsFrom(members, files);
  }

  lemma HoldsFrom(members: seq<Member>, files: Stage)
    requires forall k | 0 <= k < |members| :: MemberOk(members[k])
    requires forall j, k | 0 <= j < k < |members| && members[j].kind == RegularFile && members[k].kind == RegularFile ::
               SafeMemberName(members[j].name) != SafeMemberName(members[k].name)
    requires forall name | name in files :: exists k :: 0 <= k < |members| && Gives(members[k], name, files[name])
    requires forall k | 0 <= k < |members| && members[k].kind == RegularFile ::
               SafeMemberName(members[k].name).Ok? && SafeMemberName(members[k].name).value in files
    ensures Holds(members, files)
  {
    hide SafeMemberName, Gives;
  }

  lemma LastIsOk(members: seq<Member>, front: Stage, files: Stage)
    requires members != [] && ReadMembers(members) == Ok(files) && ReadMembers(members[..|members| - 1]) == Ok(front)
    ensures var m := members[|members| - 1];
            && MemberOk(m)
            && (m.kind == RegularFile ==> SafeMemberName(m.name).value !in front && files == front[SafeMemberName(m.name).value := Staged(m.data, m.mode)])
            && (m.kind != RegularFile ==> files == front)
  {
    hide SafeMemberName;
  }

  lemma GivenBy(members: seq<Member>, front: Stage, files: Stage, name: string)
    requires members != [] && Holds(members[..|members| - 1], front) && name in files && MemberOk(members[|members| - 1])
    requires var m := members[|members| - 1];
             files == if m.kind == RegularFile then front[SafeMemberName(m.name).value := Staged(m.data, m.mode)] else front
    ensures exists k :: 0 <= k < |members| && Gives(members[k], name, files[name])
  {
    hide SafeMemberName;
    var n := |members| - 1;
    if !Gives(members[n], name, files[name]) {
      assert name in front && files[name] == front[name];
      var k :| 0 <= k < n && Gives(members[..n][k], name, front[name]);
      assert members[..n][k] == members[k];
    }
  }

  lemma FrontDiffers(members: seq<Member>, front: Stage, j: nat, k: nat)
    requires members != [] && Holds(members[..|members| - 1], front) && j < k < |members| - 1
    requires members[j].kind == RegularFile && members[k].kind == RegularFile
    ensures SafeMemberName(members[j].name) != SafeMemberName(members[k].name)
  {
    hide SafeMemberName;
    assert members[..|members| - 1][j] == members[j] && members[..|members| - 1][k] == members[k];
  }

  lemma FrontHas(members: seq<Member>, front: Stage, k: nat)
    requires members != [] && Holds(members[..|members| - 1], front) && k < |members| - 1 && members[k].kind == RegularFile
    ensures SafeMemberName(members[k].name).Ok? && SafeMemberName(members[k].name).value in front
  {
    hide SafeMemberName;
    assert members[..|members| - 1][k] == members[k] && MemberOk(members[..|members| - 1][k]);
  }

  // ------------------------------------------------------------------ records

  /** The value reads as this number: a number, a flag, or text that `int` takes. */
  ghost predicate ReadsAs(pf: Platform, j: Json, n: int) {
    j == Num(n) || (j == Bool(true) && n == 1) || (j == Bool(false) && n == 0) || (j.Str? && pf.intOfText(j.s) == Some(n))
  }

  /** The raw record describes the file of this name: its path, hash, size and mode. */
  ghost predicate Describes(pf: Platform, raw: Json, name: string, file: Staged) {
    && raw.Obj? && "path" in raw.fields && "sha256" in raw.fields && "size" in raw.fields && "mode" in raw.fields
    && SafeMemberName(pf.str(raw.fields["path"])) == Ok(name)
    && pf.str(raw.fields["sha256"]) == "sha256:" + pf.hex(file.data)
    && ReadsAs(pf, raw.fields["size"], |file.data|)
    && pf.str(raw.fields["mode"]) == file.mode
  }

  /** Record by record, `names` are the names of the described files: each once, none the manifest's. */
  ghost predicate Listed(pf: Platform, files: Stage, raws: seq<Json>, names: seq<string>) {
    && |names| == |raws|
    && (forall k | 0 <= k < |raws| :: names[k] in files && Describes(pf, raws[k], names[k], files[names[k]]))
    && (forall k | 0 <= k < |names| :: names[k] != MANIFEST_MEMBER)
    && forall j, k | 0 <= j < k < |names| :: names[j] != names[k]
  }

  lemma RecordReadExactly(pf: Platform, files: Stage, raw: Json, name: string)
    ensures (ReadRecord(pf, raw).Ok? && SafeMemberName(ReadRecord(pf, raw).value.path) == Ok(name) && Matches(pf, files, name, ReadRecord(pf, raw).value))
       <==> (name in files && Describes(pf, raw, name, files[name]))
  {
    hide SafeMemberName;
  }

  lemma ManifestIsThere()
    ensures MANIFEST_PATH == MANIFEST_MEMBER
  {
    assert "release" + "/" == "release/";
  }

  lemma EvidenceIsThere()
    ensures EVIDENCE_ROOT == "release/competition-lineage/"
  {
    assert "release" + "/" == "release/";
  }

  lemma {:induction false} RecordsReadExactly(pf: Platform, files: Stage, raws: seq<Json>)
    ensures CheckRecords(pf, files, raws).Ok? <==> exists names :: Listed(pf, files, raws, names)
    ensures forall names | Listed(pf, files, raws, names) && CheckRecords(pf, files, raws).Ok? ::
              CheckRecords(pf, files, raws).value.names == Elements(names) + {MANIFEST_MEMBER}
    ensures CheckRecords(pf, files, raws).Ok? ==>
              (|CheckRecords(pf, files, raws).value.records| == |raws| &&
               forall k | 0 <= k < |raws| :: ReadRecord(pf, raws[k]) == Ok(CheckRecords(pf, files, raws).value.records[k]))
  {
    ManifestIsThere();
    hide ReadRecord, SafeMemberName, Matches, Describes, MANIFEST_PATH, MANIFEST_MEMBER;
    if raws == [] {
      assert Listed(pf, files, raws, []);
    } else {
      var n := |raws| - 1;
      RecordsReadExactly(pf, files, raws[..n]);
      if names :| Listed(pf, files, raws, names) { LastListed(pf, files, raws, names); }
      if CheckRecords(pf, files, raws).Ok? {
        var front :| Listed(pf, files, raws[..n], front);
        LastRead(pf, files, raws, front);
      }
      forall names | Listed(pf, files, raws, names) && CheckRecords(pf, files, raws).Ok?
        ensures CheckRecords(pf, files, raws).value.names == Elements(names) + {MANIFEST_MEMBER} {
        LastListed(pf, files, raws, names);
      }
    }
  }

  lemma LastListed(pf: Platform, files: Stage, raws: seq<Json>, names: seq<string>)
    requires raws != [] && Listed(pf, files, raws, names)
    requires var n := |raws| - 1;
             && (CheckRecords(pf, files, raws[..n]).Ok? <==> exists front :: Listed(pf, files, raws[..n], front))
             && forall front | Listed(pf, files, raws[..n], front) && CheckRecords(pf, files, raws[..n]).Ok? ::
                  CheckRecords(pf, files, raws[..n]).value.names == Elements(front) + {MANIFEST_MEMBER}
    ensures CheckRecords(pf, files, raws).Ok?
    ensures CheckRecords(pf, files, raws).value.names == Elements(names) + {MANIFEST_MEMBER}
  {
    ManifestIsThere();
    hide ReadRecord, SafeMemberName, Matches, Describes, MANIFEST_PATH, MANIFEST_MEMBER;
    var n := |raws| - 1;
    assert Listed(pf, files, raws[..n], names[..n]);
    RecordReadExactly(pf, files, raws[n], names[n]);
    assert names[n] !in Elements(names[..n]);
    assert Elements(names) == Elements(names[..n]) + {names[n]};
  }

  lemma LastRead(pf: Platform, files: Stage, raws: seq<Json>, front: seq<string>)
    requires raws != [] && CheckRecords(pf, files, raws).Ok? && Listed(pf, files, raws[..|raws| - 1], front)
    requires CheckRecords(pf, files, raws[..|raws| - 1]).value.names == Elements(front) + {MANIFEST_MEMBER}
    ensures exists names :: Listed(pf, files, raws, names)
  {
    ManifestIsThere();
    hide ReadRecord, SafeMemberName, Matches, Describes, MANIFEST_PATH, MANIFEST_MEMBER;
    var n := |raws| - 1;
    var name := SafeMemberName(ReadRecord(pf, raws[n]).value.path).value;
    RecordReadExactly(pf, files, raws[n], name);
    assert name !in Elements(front) + {MANIFEST_MEMBER};
    assert forall k | 0 <= k < n :: front[k] in Elements(front);
    OneMoreListed(pf, files, raws, front, name);
  }

  lemma OneMoreListed(pf: Platform, files: Stage, raws: seq<Json>, front: seq<string>, name: string)
    requires raws != [] && Listed(pf, files, raws[..|raws| - 1], front)
    requires name in files && Describes(pf, raws[|raws| - 1], name, files[name]) && name != MANIFEST_MEMBER
    requires forall k | 0 <= k < |front| :: front[k] != name
    ensures Listed(pf, files, raws, front + [name])
  {
    hide Describes, MANIFEST_MEMBER;
    var n := |raws| - 1;
    var names := front + [name];
    forall k | 0 <= k < |raws| ensures names[k] in files && Describes(pf, raws[k], names[k], files[names[k]]) {
      if k < n { assert raws[..n][k] == raws[k]; }
    }
  }

  // ------------------------------------------------------------------ the payload hash

  /** What a raw record reads as. */
  ghost predicate RecordFrom(pf: Platform, raw: Json, r: Record) {
    && raw.Obj? && "path" in raw.fields && "sha256" in raw.fields && "size" in raw.fields && "mode" in raw.fields
    && r.path == pf.str(raw.fields["path"]) && r.sha256 == pf.str(raw.fields["sha256"]) && r.mode == pf.str(raw.fields["mode"])
    && ReadsAs(pf, raw.fields["size"], r.size)
  }

  /** The records in the order of their paths, as JSON. */
  ghost predicate PayloadOf(pf: Platform, raws: seq<Json>, items: seq<Json>) {
    exists records: seq<Record>, listing: seq<Record> ::
      && |records| == |raws| && (forall k | 0 <= k < |raws| :: RecordFrom(pf, raws[k], records[k]))
      && multiset(listing) == multiset(records)
      && (forall i, j | 0 <= i < j < |listing| :: Less(listing[i].path, listing[j].path))
      && ItemsOf(listing, items)
  }

  ghost predicate ItemsOf(listing: seq<Record>, items: seq<Json>) {
    && |items| == |listing|
    && forall k | 0 <= k < |items| ::
         items[k] == Obj(map["path" := Str(listing[k].path), "sha256" := Str(listing[k].sha256), "size" := Num(listing[k].size),
                             "mode" := Str(listing[k].mode)])
  }

  lemma FromRead(pf: Platform, raw: Json, r: Record)
    ensures ReadRecord(pf, raw) == Ok(r) <==> RecordFrom(pf, raw, r)
  {
  }

  lemma SameListing(a: seq<Record>, b: seq<Record>)
    requires multiset(a) == multiset(b)
    requires forall i, j | 0 <= i < j < |a| :: Less(a[i].path, a[j].path)
    requires forall i, j | 0 <= i < j < |b| :: Less(b[i].path, b[j].path)
    ensures a == b
  {
    var before := (x: Record, y: Record) => Less(x.path, y.path);
    PathsAreOrdered();
    assert Elements(a) == Elements(b) by {
      forall x ensures x in a <==> x in b { assert x in multiset(a) <==> x in multiset(b); }
    }
    hide Less;
    AscendingUnique(a, b, before);
  }

  lemma PathsAreOrdered()
    ensures StrictOrder((x: Record, y: Record) => Less(x.path, y.path))
  {
    hide Less;
    TextIsOrdered();
  }

  lemma SortedIsListing(records: seq<Record>)
    requires forall i, j | 0 <= i < j < |records| :: records[i].path != records[j].path
    ensures var sorted := SortBy(records, (r: Record) => r.path);
            multiset(sorted) == multiset(records) && forall i, j | 0 <= i < j < |sorted| :: Less(sorted[i].path, sorted[j].path)
  {
    var key := (r: Record) => r.path;
    var sorted := SortBy(records, key);
    SortByKeeps(records, key);
    SortByOrders(records, key);
    TextIsOrdered();
    hide Less, SortBy;
    forall i, j | 0 <= i < j < |sorted| ensures Less(sorted[i].path, sorted[j].path) {
      if sorted[i].path == sorted[j].path { SamePathTwice(records, sorted, i, j); }
    }
  }

  lemma SamePathTwice(records: seq<Record>, sorted: seq<Record>, i: nat, j: nat)
    requires multiset(sorted) == multiset(records) && i < j < |sorted| && sorted[i].path == sorted[j].path
    ensures exists a, b :: 0 <= a < b < |records| && records[a].path == records[b].path
  {
    assert sorted == sorted[..j] + [sorted[j]] + sorted[j + 1..];
    if sorted[i] == sorted[j] {
      assert multiset(sorted)[sorted[i]] >= 2 by { assert sorted[i] in multiset(sorted[..j]); }
      TwiceIn(records, sorted[i]);
    } else {
      assert sorted[i] in multiset(records) && sorted[j] in multiset(records);
      var a :| 0 <= a < |records| && records[a] == sorted[i];
      var b :| 0 <= b < |records| && records[b] == sorted[j];
      assert if a < b then records[a].path == records[b].path else records[b].path == records[a].path;
    }
  }

  lemma TwiceIn(records: seq<Record>, x: Record)
    requires multiset(records)[x] >= 2
    ensures exists a, b :: 0 <= a < b < |records| && records[a] == x && records[b] == x
  {
    var n := |records| - 1;
    assert records == records[..n] + [records[n]];
    if records[n] == x {
      assert x in multiset(records[..n]);
      var a :| 0 <= a < n && records[..n][a] == x;
      assert records[a] == x && a < n;
    } else {
      TwiceIn(records[..n], x);
      var a, b :| 0 <= a < b < n && records[..n][a] == x && records[..n][b] == x;
      assert records[a] == x && records[b] == x;
    }
  }

  lemma ReadOnce(pf: Platform, raws: seq<Json>, records: seq<Record>, read: seq<Record>)
    requires |records| == |raws| && forall k | 0 <= k < |raws| :: ReadRecord(pf, raws[k]) == Ok(records[k])
    requires |read| == |raws| && forall k | 0 <= k < |raws| :: RecordFrom(pf, raws[k], read[k])
    ensures read == records
  {
    hide ReadRecord, RecordFrom;
    forall k | 0 <= k < |raws| ensures read[k] == records[k] { FromRead(pf, raws[k], read[k]); }
  }

  lemma PayloadIsListed(pf: Platform, raws: seq<Json>, records: seq<Record>)
    requires |records| == |raws| && forall k | 0 <= k < |raws| :: ReadRecord(pf, raws[k]) == Ok(records[k])
    requires forall i, j | 0 <= i < j < |records| :: records[i].path != records[j].path
    ensures PayloadOf(pf, raws, RecordsJson(SortBy(records, (r: Record) => r.path)))
  {
    hide SortBy, ReadRecord, RecordFrom, Less, ItemsOf;
    var sorted := SortBy(records, (r: Record) => r.path);
    SortedIsListing(records);
    forall k | 0 <= k < |raws| ensures RecordFrom(pf, raws[k], records[k]) { FromRead(pf, raws[k], records[k]); }
    ItemsAreJson(sorted, RecordsJson(sorted));
  }

  /** The payload hash is that of the listing, and there is one listing only. */
  lemma PayloadExactly(pf: Platform, raws: seq<Json>, records: seq<Record>, items: seq<Json>)
    requires |records| == |raws| && forall k | 0 <= k < |raws| :: ReadRecord(pf, raws[k]) == Ok(records[k])
    requires forall i, j | 0 <= i < j < |records| :: records[i].path != records[j].path
    ensures PayloadOf(pf, raws, items) <==> items == RecordsJson(SortBy(records, (r: Record) => r.path))
  {
    hide SortBy, ReadRecord, RecordFrom, Less, ItemsOf, RecordsJson;
    PayloadIsListed(pf, raws, records);
    if PayloadOf(pf, raws, items) {
      var read: seq<Record>, listing: seq<Record> :|
        && |read| == |raws| && (forall k | 0 <= k < |raws| :: RecordFrom(pf, raws[k], read[k]))
        && multiset(listing) == multiset(read)
        && (forall i, j | 0 <= i < j < |listing| :: Less(listing[i].path, listing[j].path))
        && ItemsOf(listing, items);
      ReadOnce(pf, raws, records, read);
      SortedIsListing(records);
      SameListing(listing, SortBy(records, (r: Record) => r.path));
      ItemsAreJson(listing, items);
    }
  }

  lemma ItemsAreJson(listing: seq<Record>, items: seq<Json>)
    ensures ItemsOf(listing, items) <==> items == RecordsJson(listing)
  {
    forall k | 0 <= k < |listing|
      ensures RecordsJson(listing)[k] == Obj(map["path" := Str(listing[k].path), "sha256" := Str(listing[k].sha256),
                                                 "size" := Num(listing[k].size), "mode" := Str(listing[k].mode)]) {}
  }

  // ------------------------------------------------------------------ the whole archive

  /** Equal, in Python, to the number n. */
  ghost predicate Counts(j: Json, n: nat) {
    j == Num(n) || (j == Bool(true) && n == 1) || (j == Bool(false) && n == 0)
  }

  ghost predicate ManifestAgrees(pf: Platform, m: Dict, expected: string, runtime: seq<Json>, evidence: seq<Json>) {
    && Get(m, "schema") == Str("competition.runtime_package.v1")
    && (expected != "" ==> Get(m, "sourceCommit") == Str(expected))
    && Get(m, "entrypoint") == Str("src.api.main:app")
    && (if "manifestHash" in m then pf.str(m["manifestHash"]) else "") == "sha256:" + pf.hex(pf.canon(Obj(m - {"manifestHash"})))
    && Get(m, "runtimeFiles") == Arr(runtime) && Get(m, "evidenceFiles") == Arr(evidence)
    && Counts(Get(m, "runtimeFileCount"), |runtime|) && Counts(Get(m, "evidenceFileCount"), |evidence|)
    && Counts(Get(m, "payloadFileCount"), |runtime| + |evidence|)
  }

  ghost predicate Declared(pf: Platform, m: Dict, files: Stage, raws: seq<Json>) {
    && (exists names :: Listed(pf, files, raws, names) && files.Keys == Elements(names) + {MANIFEST_MEMBER})
    && exists items :: PayloadOf(pf, raws, items) && Get(m, "payloadHash") == Str("sha256:" + pf.hex(pf.canon(Arr(items))))
  }

  /** The embedded report and evidence manifest: both verified, the report about this package. */
  ghost predicate EmbedsLineage(pf: Platform, m: Dict, files: Stage) {
    && "release/competition-lineage/" + "verification-report.json" in files
    && "release/competition-lineage/" + "evidence-manifest.json" in files
    && exists report, evidence ::
         && pf.parse(files["release/competition-lineage/" + "verification-report.json"].data) == Some(Obj(report))
         && pf.parse(files["release/competition-lineage/" + "evidence-manifest.json"].data) == Some(Obj(evidence))
         && Get(report, "verified") == Bool(true) && Get(evidence, "verified") == Bool(true)
         && Get(report, "sourceCommit") == Get(m, "sourceCommit")
         && Get(report, "runtimeHash") == Get(m, "runtimeHash")
         && Get(report, "graphHash") == Get(m, "lineageGraphHash")
  }

  /** An archive in order: these are its files, and this is its manifest. */
  ghost predicate InOrder(pf: Platform, members: seq<Member>, expected: string, files: Stage, m: Dict) {
    && Holds(members, files)
    && MANIFEST_MEMBER in files
    && pf.parse(files[MANIFEST_MEMBER].data) == Some(Obj(m))
    && (exists runtime, evidence :: ManifestAgrees(pf, m, expected, runtime, evidence) && Declared(pf, m, files, runtime + evidence))
    && EmbedsLineage(pf, m, files)
  }

  lemma HeaderExactly(pf: Platform, m: Dict, expected: string)
    ensures (exists runtime, evidence :: ManifestAgrees(pf, m, expected, runtime, evidence)) <==>
              && HeaderAccepted(pf, m, expected) && Get(m, "entrypoint") == Str(ENTRYPOINT)
              && IsCount(Get(m, "runtimeFileCount"), |ItemsOrEmpty(Get(m, "runtimeFiles"))|)
              && IsCount(Get(m, "evidenceFileCount"), |ItemsOrEmpty(Get(m, "evidenceFiles"))|)
              && IsCount(Get(m, "payloadFileCount"), |DeclaredRecords(m)|)
    ensures forall runtime, evidence | ManifestAgrees(pf, m, expected, runtime, evidence) :: DeclaredRecords(m) == runtime + evidence
  {
    hide ItemsOrEmpty;
    if Get(m, "runtimeFiles").Arr? && Get(m, "evidenceFiles").Arr? {
      assert ItemsOrEmpty(Get(m, "runtimeFiles")) == Get(m, "runtimeFiles").items by { ItemsAre(Get(m, "runtimeFiles")); }
      assert ItemsOrEmpty(Get(m, "evidenceFiles")) == Get(m, "evidenceFiles").items by { ItemsAre(Get(m, "evidenceFiles")); }
      hide Get;
      if HeaderAccepted(pf, m, expected) && Get(m, "entrypoint") == Str(ENTRYPOINT)
         && IsCount(Get(m, "runtimeFileCount"), |ItemsOrEmpty(Get(m, "runtimeFiles"))|)
         && IsCount(Get(m, "evidenceFileCount"), |ItemsOrEmpty(Get(m, "evidenceFiles"))|)
         && IsCount(Get(m, "payloadFileCount"), |DeclaredRecords(m)|) {
        assert ManifestAgrees(pf, m, expected, Get(m, "runtimeFiles").items, Get(m, "evidenceFiles").items);
      }
    }
  }

  lemma ItemsAre(j: Json)
    requires j.Arr?
    ensures ItemsOrEmpty(j) == j.items
  {
  }

  lemma EmbeddedExactly(pf: Platform, m: Dict, files: Stage)
    ensures EmbedsLineage(pf, m, files) <==> LineageAccepted(pf, files, m)
  {
    EvidenceIsThere();
    hide EVIDENCE_ROOT, Get;
  }

  lemma DistinctPaths(pf: Platform, files: Stage, raws: seq<Json>, names: seq<string>, records: seq<Record>)
    requires Listed(pf, files, raws, names) && |records| == |raws| && forall k | 0 <= k < |raws| :: ReadRecord(pf, raws[k]) == Ok(records[k])
    ensures forall i, j | 0 <= i < j < |records| :: records[i].path != records[j].path
  {
    hide SafeMemberName, ReadRecord;
    forall i, j | 0 <= i < j < |records| ensures records[i].path != records[j].path {
      FromRead(pf, raws[i], records[i]);
      FromRead(pf, raws[j], records[j]);
    }
  }

  lemma DeclaredExactly(pf: Platform, m: Dict, files: Stage)
    ensures Declared(pf, m, files, DeclaredRecords(m)) <==>
              && CheckRecords(pf, files, DeclaredRecords(m)).Ok? && files.Keys == CheckRecords(pf, files, DeclaredRecords(m)).value.names
              && Get(m, "payloadHash") == Str(PayloadHash(pf, CheckRecords(pf, files, DeclaredRecords(m)).value.records))
  {
    hide Listed, PayloadOf, CheckRecords, RecordsJson, DeclaredRecords, ReadRecord;
    var raws := DeclaredRecords(m);
    RecordsReadExactly(pf, files, raws);
    if CheckRecords(pf, files, raws).Ok? {
      var names :| Listed(pf, files, raws, names);
      var records := CheckRecords(pf, files, raws).value.records;
      DistinctPaths(pf, files, raws, names, records);
      var sorted := RecordsJson(SortBy(records, (r: Record) => r.path));
      PayloadExactly(pf, raws, records, sorted);
      forall items | PayloadOf(pf, raws, items) ensures items == sorted { PayloadExactly(pf, raws, records, items); }
    }
  }

  /** The verifier accepts exactly the archives in order, and returns their files and manifest. */
  lemma VerifiedExactly(pf: Platform, members: seq<Member>, expected: string)
    ensures forall v :: Verified(pf, members, expected) == Ok(v) <==> InOrder(pf, members, expected, v.files, v.manifest)
    ensures Verified(pf, members, expected).Ok? <==> exists files, m :: InOrder(pf, members, expected, files, m)
  {
    hide Holds, ManifestAgrees, Declared, EmbedsLineage, ReadMembers, CheckRecords, HeaderAccepted, LineageAccepted, DeclaredRecords, PayloadHash, IsCount, Get;
    ManifestIsThere();
    hide MANIFEST_PATH, MANIFEST_MEMBER;
    MembersReadExactly(members);
    forall v ensures Verified(pf, members, expected) == Ok(v) <==> InOrder(pf, members, expected, v.files, v.manifest) {
      if ReadMembers(members).Ok? && Holds(members, v.files) { HoldsOne(members, v.files, ReadMembers(members).value); }
      HeaderExactly(pf, v.manifest, expected);
      DeclaredExactly(pf, v.manifest, v.files);
      EmbeddedExactly(pf, v.manifest, v.files);
    }
    if files, m :| InOrder(pf, members, expected, files, m) {
      assert Verified(pf, members, expected) == Ok(Verdict(files, m));
    }
  }
}
