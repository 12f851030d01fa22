/** What the update gate reads and admits, told on the documents and on the fields of the profile. */
module GateContract {
  import opened Sorting
  import opened PyText
  import opened Json
  import opened LineageGraph
  import opened UpdateGate
  import UpdateGateTheorems
  import Platform
  import LineageEvidence
  import LineageDocuments
  import CompiledGate

  // ------------------------------------------------------------------ reading the graph

  function Field(node: Dict, key: string): string {
    Strip(TextOrEmpty(Get(node, key)))
  }

  /** The item at k is the last node of the list with this id. */
  ghost predicate LastAt(items: seq<Json>, id: string, k: int) {
    && 0 <= k < |items| && items[k].Obj? && Field(items[k].fields, "id") == id != ""
    && forall j | k < j < |items| && items[j].Obj? :: Field(items[j].fields, "id") != id
  }

  /** The item at k is the first node of the list with this id. */
  ghost predicate FirstAt(items: seq<Json>, id: string, k: int) {
    && 0 <= k < |items| && items[k].Obj? && Field(items[k].fields, "id") == id != ""
    && forall j | 0 <= j < k && items[j].Obj? :: Field(items[j].fields, "id") != id
  }

  /** A node is the last entry with its id. */
  lemma {:induction false} NodesExactly(items: seq<Json>, id: string, node: Dict)
    ensures (id in NodesOf(items).entries && NodesOf(items).entries[id] == node) <==>
              exists k :: LastAt(items, id, k) && items[k] == Obj(node)
  {
    if items != [] {
      var n := |items| - 1;
      NodesExactly(items[..n], id, node);
      if items[n].Obj? && Field(items[n].fields, "id") == id != "" {
        assert LastAt(items, id, n);
      } else {
        LastStays(items, id);
      }
    }
  }

  lemma LastStays(items: seq<Json>, id: string)
    requires items != [] && var x := items[|items| - 1]; !(x.Obj? && Field(x.fields, "id") == id != "")
    ensures forall k :: LastAt(items, id, k) <==> LastAt(items[..|items| - 1], id, k)
  {
  }

  /** Ids keep the order of their first entries. */
  lemma {:induction false} OrderExactly(items: seq<Json>)
    ensures Elements(NodesOf(items).order) == NodesOf(items).entries.Keys
    ensures forall x, y | 0 <= x < y < |NodesOf(items).order| :: InFrontOf(items, NodesOf(items).order[x], NodesOf(items).order[y])
    ensures forall id | id in NodesOf(items).order :: exists k :: FirstAt(items, id, k)
  {
    NodesWellFormed(items);
    if items != [] {
      var n := |items| - 1;
      OrderExactly(items[..n]);
      var t, u := NodesOf(items[..n]), NodesOf(items);
      OrderStep(items);
    }
  }

  /** The first entry of a comes before that of b. */
  ghost predicate InFrontOf(items: seq<Json>, a: string, b: string) {
    exists j, k :: FirstAt(items, a, j) && FirstAt(items, b, k) && j < k
  }

  lemma OrderStep(items: seq<Json>)
    requires items != []
    requires var front := items[..|items| - 1]; var t := NodesOf(front);
             && Elements(t.order) == t.entries.Keys && (forall id | id in t.order :: exists k :: FirstAt(front, id, k))
             && forall x, y | 0 <= x < y < |t.order| :: InFrontOf(front, t.order[x], t.order[y])
    ensures forall x, y | 0 <= x < y < |NodesOf(items).order| :: InFrontOf(items, NodesOf(items).order[x], NodesOf(items).order[y])
    ensures forall id | id in NodesOf(items).order :: exists k :: FirstAt(items, id, k)
  {
    var n := |items| - 1;
    var t, u := NodesOf(items[..n]), NodesOf(items);
    forall id, k | FirstAt(items[..n], id, k) ensures FirstAt(items, id, k) {}
    forall a, b | InFrontOf(items[..n], a, b) ensures InFrontOf(items, a, b) {}
    if u.order != t.order {
      var id := u.order[|t.order|];
      assert id !in Elements(t.order);
      NewcomerIsFirst(items, id);
      forall x | 0 <= x < |t.order| ensures InFrontOf(items, t.order[x], id) {
        assert t.order[x] in t.order;
        var k :| FirstAt(items[..n], t.order[x], k);
        assert FirstAt(items, t.order[x], k);
      }
    }
  }

  lemma NewcomerIsFirst(items: seq<Json>, id: string)
    requires items != [] && items[|items| - 1].Obj? && Field(items[|items| - 1].fields, "id") == id != ""
    requires id !in NodesOf(items[..|items| - 1]).entries
    ensures FirstAt(items, id, |items| - 1)
  {
    var n := |items| - 1;
    forall j | 0 <= j < n && items[j].Obj? ensures Field(items[j].fields, "id") != id { IdIsRead(items[..n], j); }
  }

  lemma {:induction false} IdIsRead(items: seq<Json>, j: nat)
    requires j < |items| && items[j].Obj?
    ensures Field(items[j].fields, "id") != "" ==> Field(items[j].fields, "id") in NodesOf(items).entries
  {
    if j < |items| - 1 { IdIsRead(items[..|items| - 1], j); }
  }

  ghost predicate IsFileOf(node: Dict, path: string) {
    Get(node, "type") == Str("file") && Field(node, "path") == path != ""
  }

  /** The last of the ids that stands for the path. */
  lemma {:induction false} ListedFiles(order: seq<string>, entries: map<string, Dict>, path: string, node: Dict)
    requires forall id | id in order :: id in entries
    ensures (path in FilesOf(order, entries) && FilesOf(order, entries)[path] == node) <==>
              exists x :: LastFileAt(order, entries, path, x) && entries[order[x]] == node
  {
    if order != [] {
      var n := |order| - 1;
      ListedFiles(order[..n], entries, path, node);
      if IsFileOf(entries[order[n]], path) {
        assert LastFileAt(order, entries, path, n);
      } else {
        LastFileStays(order, entries, path);
      }
    }
  }

  lemma LastFileStays(order: seq<string>, entries: map<string, Dict>, path: string)
    requires order != [] && (forall id | id in order :: id in entries) && !IsFileOf(entries[order[|order| - 1]], path)
    ensures forall x :: LastFileAt(order, entries, path, x) <==> LastFileAt(order[..|order| - 1], entries, path, x)
  {
    hide IsFileOf;
  }

  ghost predicate LastFileAt(order: seq<string>, entries: map<string, Dict>, path: string, x: int)
    requires forall id | id in order :: id in entries
  {
    && 0 <= x < |order| && IsFileOf(entries[order[x]], path)
    && forall y | x < y < |order| :: !IsFileOf(entries[order[y]], path)
  }

  /** The file of a path is the node of type file that shows the path; of several, the one whose id came last. */
  ghost predicate FileAt(e: Evidence, path: string, node: Dict) {
    exists id ::
      && id in Nodes(e) && Nodes(e)[id] == node && IsFileOf(node, path)
      && forall other | other in Nodes(e) && IsFileOf(Nodes(e)[other], path) && other != id :: InFrontOf(ItemsOrEmpty(Get(e.graph, "nodes")), other, id)
  }

  lemma FilesExactly(e: Evidence, path: string, node: Dict)
    ensures (path in Files(e) && Files(e)[path] == node) <==> FileAt(e, path, node)
  {
    hide NodesOf, FilesOf, IsFileOf, LastFileAt, InFrontOf;
    var items := ItemsOrEmpty(Get(e.graph, "nodes"));
    var t := NodesOf(items);
    OrderExactly(items);
    assert forall id :: id in t.order <==> id in Elements(t.order);
    ListedFiles(t.order, t.entries, path, node);
    if path in Files(e) && Files(e)[path] == node { ListedIsFile(e, path, node); }
    if FileAt(e, path, node) { FileIsListed(e, path, node); }
  }

  lemma ListedIsFile(e: Evidence, path: string, node: Dict)
    requires var t := NodesOf(ItemsOrEmpty(Get(e.graph, "nodes")));
             (forall id | id in t.order :: id in t.entries) && exists x :: LastFileAt(t.order, t.entries, path, x) && t.entries[t.order[x]] == node
    ensures FileAt(e, path, node)
  {
    hide NodesOf, IsFileOf, InFrontOf;
    var items := ItemsOrEmpty(Get(e.graph, "nodes"));
    var t := NodesOf(items);
    var x :| LastFileAt(t.order, t.entries, path, x) && t.entries[t.order[x]] == node;
    LastIs(t.order, t.entries, path, x);
    var id := t.order[x];
    assert id in Nodes(e) && Nodes(e)[id] == node && IsFileOf(node, path);
    forall other | other in Nodes(e) && IsFileOf(Nodes(e)[other], path) && other != id ensures InFrontOf(items, other, id) {
      OthersAreInFront(items, path, x, other);
    }
  }

  lemma LastIs(order: seq<string>, entries: map<string, Dict>, path: string, x: int)
    requires (forall id | id in order :: id in entries) && LastFileAt(order, entries, path, x)
    ensures 0 <= x < |order| && order[x] in entries && IsFileOf(entries[order[x]], path)
    ensures forall y | 0 <= y < |order| && y != x && IsFileOf(entries[order[y]], path) :: y < x
  {
    hide IsFileOf;
  }

  lemma OthersAreInFront(items: seq<Json>, path: string, x: int, other: string)
    requires var t := NodesOf(items);
             && (forall id | id in t.order :: id in t.entries) && LastFileAt(t.order, t.entries, path, x)
             && other in t.entries && IsFileOf(t.entries[other], path) && other != t.order[x]
    ensures InFrontOf(items, other, NodesOf(items).order[x])
  {
    hide NodesOf, IsFileOf, InFrontOf, LastFileAt;
    var t := NodesOf(items);
    OrderExactly(items);
    LastIs(t.order, t.entries, path, x);
    assert other in Elements(t.order);
    var y :| 0 <= y < |t.order| && t.order[y] == other;
  }

  lemma FileIsListed(e: Evidence, path: string, node: Dict)
    requires FileAt(e, path, node) && var t := NodesOf(ItemsOrEmpty(Get(e.graph, "nodes"))); forall id | id in t.order :: id in t.entries
    ensures var t := NodesOf(ItemsOrEmpty(Get(e.graph, "nodes")));
            exists x :: LastFileAt(t.order, t.entries, path, x) && t.entries[t.order[x]] == node
  {
    hide NodesOf, IsFileOf, InFrontOf;
    var items := ItemsOrEmpty(Get(e.graph, "nodes"));
    var t := NodesOf(items);
    OrderExactly(items);
    var id :| id in Nodes(e) && Nodes(e)[id] == node && IsFileOf(node, path)
      && forall other | other in Nodes(e) && IsFileOf(Nodes(e)[other], path) && other != id :: InFrontOf(items, other, id);
    assert id in Elements(t.order);
    var x :| 0 <= x < |t.order| && t.order[x] == id;
    forall y | x < y < |t.order| ensures !IsFileOf(t.entries[t.order[y]], path) {
      assert InFrontOf(items, id, t.order[y]);
      NotBoth(items, id, t.order[y]);
      assert t.order[y] in Nodes(e);
    }
  }

  lemma NotBoth(items: seq<Json>, a: string, b: string)
    requires InFrontOf(items, a, b)
    ensures a != b && !InFrontOf(items, b, a)
  {
    hide Field;
  }

  ghost predicate EdgeAt(items: seq<Json>, e: Edge) {
    && e.source != "" && e.target != "" && e.kind != ""
    && exists raw :: raw in items && raw.Obj? && Field(raw.fields, "from") == e.source && Field(raw.fields, "to") == e.target && Field(raw.fields, "type") == e.kind
  }

  lemma {:induction false} EdgesExactly(items: seq<Json>, e: Edge)
    ensures e in EdgesOf(items) <==> EdgeAt(items, e)
  {
    hide Strip, TextOrEmpty;
    if items != [] {
      var n := |items| - 1;
      EdgesExactly(items[..n], e);
      assert forall raw :: raw in items <==> raw in items[..n] || raw == items[n];
    }
  }

  // ------------------------------------------------------------------ reading the profile

  /** The usable texts of a list. */
  ghost predicate Lists(d: Dict, key: string, text: string) {
    Get(d, key).Arr? && exists item :: item in Get(d, key).items && Text(item) == text && Strip(text) != ""
  }

  ghost predicate FlagIs(d: Dict, key: string, flag: bool, otherwise: bool) {
    flag == if key in d then Truthy(d[key]) else otherwise
  }

  lemma {:induction false} TextListExactly(items: seq<Json>, text: string)
    ensures text in TextList(items) <==> exists item :: item in items && Text(item) == text && Strip(text) != ""
  {
    hide Strip, Text;
    if items != [] {
      var n := |items| - 1;
      TextListExactly(items[..n], text);
      assert forall item :: item in items <==> item in items[..n] || item == items[n];
    }
  }

  /** What a profile document asks for and what it allows. */
  lemma ProfileExactly(d: Dict)
    ensures var p := ProfileOf(d);
            && FlagIs(d, "requireBaselineVerified", p.requireBaselineVerified, true)
            && FlagIs(d, "requireTargetVerified", p.requireTargetVerified, true)
            && FlagIs(d, "requireRuntimeHashStable", p.requireRuntimeHashStable, false)
            && FlagIs(d, "requireGraphHashStable", p.requireGraphHashStable, false)
            && FlagIs(d, "allowRuntimeMembershipChange", p.allowRuntimeMembershipChange, false)
            && FlagIs(d, "allowRegistryModuleChanges", p.allowRegistryModuleChanges, false)
            && FlagIs(d, "allowEdgeChanges", p.allowEdgeChanges, false)
            && forall text ::
                 && (text in p.pathPrefixes <==> Lists(d, "allowedRuntimePathPrefixes", text))
                 && (text in p.registryModules <==> Lists(d, "allowedRegistryModules", text))
                 && (text in p.nodePrefixes <==> Lists(d, "allowedNodePrefixes", text))
                 && (text in p.specialHashes <==> Lists(d, "allowedSpecialHashChanges", text))
  {
    hide TextList;
    var p := ProfileOf(d);
    forall text ensures
        && (text in p.pathPrefixes <==> Lists(d, "allowedRuntimePathPrefixes", text))
        && (text in p.registryModules <==> Lists(d, "allowedRegistryModules", text))
        && (text in p.nodePrefixes <==> Lists(d, "allowedNodePrefixes", text))
        && (text in p.specialHashes <==> Lists(d, "allowedSpecialHashChanges", text)) {
      TextListExactly(ItemsOrEmpty(Get(d, "allowedRuntimePathPrefixes")), text);
      TextListExactly(ItemsOrEmpty(Get(d, "allowedRegistryModules")), text);
      TextListExactly(ItemsOrEmpty(Get(d, "allowedNodePrefixes")), text);
      TextListExactly(ItemsOrEmpty(Get(d, "allowedSpecialHashChanges")), text);
    }
  }

  // ------------------------------------------------------------------ what changed

  /** Both know the field with one value, or neither knows it. */
  predicate SameField(a: Dict, b: Dict, field: string) {
    (field in a <==> field in b) && (field in a && field in b ==> a[field] == b[field])
  }

  /** A key known to one side only, or two nodes that differ in a field other than the commit. */
  ghost predicate Changed(a: map<string, Dict>, b: map<string, Dict>, key: string) {
    || (key in a && key !in b) || (key !in a && key in b)
    || (key in a && key in b && exists field :: field != "sourceCommit" && !SameField(a[key], b[key], field))
  }

  lemma ChangedExactly(a: map<string, Dict>, b: map<string, Dict>, key: string)
    ensures key in Differing(a, b) <==> Changed(a, b, key)
  {
    if key in a && key in b {
      var x, y := Normalized(a[key]), Normalized(b[key]);
      if forall field | field != "sourceCommit" :: SameField(a[key], b[key], field) {
        forall field ensures SameField(x, y, field) { assert field == "sourceCommit" || SameField(a[key], b[key], field); }
        SameEverywhere(x, y);
      }
      if x == y {
        forall field | field != "sourceCommit" ensures SameField(a[key], b[key], field) {
          assert field in a[key] <==> field in x;
          assert field in b[key] <==> field in y;
        }
      }
    }
  }

  lemma SameEverywhere(x: Dict, y: Dict)
    requires forall field :: SameField(x, y, field)
    ensures x == y
  {
    forall field ensures field in x <==> field in y { assert SameField(x, y, field); }
    forall field | field in x ensures x[field] == y[field] { assert SameField(x, y, field); }
  }

  /** The module as the registry snapshot has it. */
  function ModuleIn(e: Evidence, m: string): Json {
    match Get(e.registry, "modules")
    case Obj(fields) => Get(fields, m)
    case _ => Null
  }

  lemma ModulesExactly(b: Evidence, t: Evidence, m: string)
    ensures m in ChangedModules(b, t) <==> ModuleIn(b, m) != ModuleIn(t, m)
  {
  }

  lemma SpecialsExactly(b: Evidence, t: Evidence, allowed: set<string>)
    ensures ChangedSpecials(b, t) <= allowed <==>
              && ("registryRootHash" in allowed || Get(b.verification, "registryRootHash") == Get(t.verification, "registryRootHash"))
              && ("productBoundaryHash" in allowed || Get(b.verification, "productBoundaryHash") == Get(t.verification, "productBoundaryHash"))
              && ("externalInterfaceRegistryHash" in allowed ||
                  Get(b.verification, "externalInterfaceRegistryHash") == Get(t.verification, "externalInterfaceRegistryHash"))
              && ("interfaceGovernanceHash" in allowed || Get(b.verification, "interfaceGovernanceHash") == Get(t.verification, "interfaceGovernanceHash"))
  {
    SpecialIs(b, t, "registryRootHash");
    SpecialIs(b, t, "productBoundaryHash");
    SpecialIs(b, t, "externalInterfaceRegistryHash");
    SpecialIs(b, t, "interfaceGovernanceHash");
    forall field | field in ChangedSpecials(b, t)
      ensures field == "registryRootHash" || field == "productBoundaryHash" || field == "externalInterfaceRegistryHash" || field == "interfaceGovernanceHash" {
      SpecialNames(field);
    }
    hide ChangedSpecials, SPECIAL_HASH_FIELDS;
  }

  lemma SpecialNames(field: string)
    ensures field in SPECIAL_HASH_FIELDS <==>
              field == "registryRootHash" || field == "productBoundaryHash" || field == "externalInterfaceRegistryHash" || field == "interfaceGovernanceHash"
  {
  }

  lemma SpecialIs(b: Evidence, t: Evidence, field: string)
    requires field == "registryRootHash" || field == "productBoundaryHash" || field == "externalInterfaceRegistryHash" || field == "interfaceGovernanceHash"
    ensures field in ChangedSpecials(b, t) <==> Get(b.verification, field) != Get(t.verification, field)
  {
    SpecialNames(field);
    hide SPECIAL_HASH_FIELDS;
  }

  // ------------------------------------------------------------------ what the profile lets pass

  predicate StartsWithOne(text: string, prefixes: seq<string>) {
    exists prefix | prefix in prefixes :: prefix <= text
  }

  /** An owner of the node is an allowed module. */
  ghost predicate OwnedByOne(node: Dict, modules: set<string>) {
    Get(node, "registryModules").Arr? && exists owner :: owner in Get(node, "registryModules").items && Text(owner) in modules
  }

  ghost predicate FilePasses(p: Profile, path: string, node: Dict) {
    StartsWithOne(path, p.pathPrefixes) || OwnedByOne(node, p.registryModules)
  }

  /** The name that the node shows, or else the rest of its id. */
  function Shown(node: Dict, key: string, rest: string): string {
    if Truthy(Get(node, key)) then Text(Get(node, key)) else rest
  }

  ghost predicate NodePasses(p: Profile, id: string, node: Dict) {
    || StartsWithOne(id, p.nodePrefixes)
    || (exists rest :: id == "file:" + rest && FilePasses(p, Shown(node, "path", rest), node))
    || exists rest :: id == "registry:" + rest && Shown(node, "moduleId", rest) in p.registryModules
  }

  lemma PrefixExactly(text: string, prefixes: seq<string>)
    ensures PrefixAllowed(text, prefixes) <==> StartsWithOne(text, prefixes)
  {
  }

  lemma FileExactly(p: Profile, path: string, node: Dict)
    ensures FileChangeAllowed(path, node, p) <==> FilePasses(p, path, node)
  {
    hide PrefixAllowed, StartsWithOne;
    PrefixExactly(path, p.pathPrefixes);
    if OwnedByOne(node, p.registryModules) {
      var owner :| owner in Get(node, "registryModules").items && Text(owner) in p.registryModules;
      assert Text(owner) in Owners(node) * p.registryModules;
    }
    if name :| name in Owners(node) * p.registryModules {
      var owner :| owner in ItemsOrEmpty(Get(node, "registryModules")) && Text(owner) == name;
    }
  }

  lemma NodeExactly(p: Profile, id: string, node: Dict)
    ensures NodeChangeAllowed(id, node, p) <==> NodePasses(p, id, node)
  {
    hide PrefixAllowed, StartsWithOne, FileChangeAllowed, FilePasses;
    PrefixExactly(id, p.nodePrefixes);
    forall path ensures FileChangeAllowed(path, node, p) <==> FilePasses(p, path, node) { FileExactly(p, path, node); }
    RestOf(id, "file:");
    RestOf(id, "registry:");
    assert "file:" <= id ==> !("registry:" <= id) by { assert "file:"[0] != "registry:"[0]; }
  }

  lemma RestOf(id: string, prefix: string)
    ensures prefix <= id ==> id == prefix + id[|prefix|..]
    ensures forall rest :: id == prefix + rest ==> prefix <= id && rest == id[|prefix|..]
  {
  }

  /** The node that a change is judged by: the target's, or the baseline's if the target has none. */
  function Judged(b: map<string, Dict>, t: map<string, Dict>, key: string): Dict {
    if key in t then t[key] else if key in b then b[key] else map[]
  }

  lemma NodesAreJudged(b: Evidence, t: Evidence, key: string)
    ensures Latest(Nodes(b), Nodes(t), key) == Judged(Nodes(b), Nodes(t), key)
  {
    UpdateGateTheorems.NodesAreNotEmpty(ItemsOrEmpty(Get(b.graph, "nodes")));
    UpdateGateTheorems.NodesAreNotEmpty(ItemsOrEmpty(Get(t.graph, "nodes")));
  }

  lemma FilesAreJudged(b: Evidence, t: Evidence, path: string)
    ensures Latest(Files(b), Files(t), path) == Judged(Files(b), Files(t), path)
  {
    hide Files, InFrontOf, Nodes;
    if path in Files(b) { FilesExactly(b, path, Files(b)[path]); }
    if path in Files(t) { FilesExactly(t, path, Files(t)[path]); }
  }

  ghost predicate EndPasses(b: Evidence, t: Evidence, p: Profile, id: string) {
    NodePasses(p, id, Judged(Nodes(b), Nodes(t), id))
  }

  /** What the profile asks of the two reports. */
  ghost predicate ReportsPass(b: Dict, t: Dict, p: Profile) {
    && (p.requireBaselineVerified ==> Get(b, "verified") == Bool(true))
    && (p.requireTargetVerified ==> Get(t, "verified") == Bool(true))
    && (p.requireRuntimeHashStable ==> Get(b, "runtimeHash") == Get(t, "runtimeHash"))
    && (p.requireGraphHashStable ==> Get(b, "graphHash") == Get(t, "graphHash"))
    && ("registryRootHash" in p.specialHashes || Get(b, "registryRootHash") == Get(t, "registryRootHash"))
    && ("productBoundaryHash" in p.specialHashes || Get(b, "productBoundaryHash") == Get(t, "productBoundaryHash"))
    && ("externalInterfaceRegistryHash" in p.specialHashes || Get(b, "externalInterfaceRegistryHash") == Get(t, "externalInterfaceRegistryHash"))
    && ("interfaceGovernanceHash" in p.specialHashes || Get(b, "interfaceGovernanceHash") == Get(t, "interfaceGovernanceHash"))
  }

  /** Exactly the updates that the gate admits, for every profile: the reports stand, and each change of a
      module, of the runtime's members, of a file, of an edge and of any other node is one that the profile allows. */
  lemma AdmittedExactly(b: Evidence, t: Evidence, p: Profile)
    ensures Admitted(b, t, p) <==>
              && ReportsPass(b.verification, t.verification, p)
              && (forall m :: ModuleIn(b, m) != ModuleIn(t, m) ==> p.allowRegistryModuleChanges && m in p.registryModules)
              && (p.allowRuntimeMembershipChange || forall path :: path in Files(b) <==> path in Files(t))
              && (forall path :: Changed(Files(b), Files(t), path) ==> FilePasses(p, path, Judged(Files(b), Files(t), path)))
              && (forall e :: (e in Edges(b)) != (e in Edges(t)) ==>
                    p.allowEdgeChanges && (EndPasses(b, t, p, e.source) || EndPasses(b, t, p, e.target)))
              && forall id :: Changed(Nodes(b), Nodes(t), id) ==>
                    EndPasses(b, t, p, id) || exists path :: id == "file:" + path && (path in Files(b) || path in Files(t))
  {
    hide Nodes, Files, Edges, Changed, Differing, NodePasses, NodeChangeAllowed, FilePasses, FileChangeAllowed, Latest, Judged, ModuleIn,
         ReportsPass, HashesAdmitted, FilesAdmitted, EdgesAdmitted, NodesAdmitted, EndPasses;
    HashesExactly(b, t, p);
    FilesAdmittedExactly(b, t, p);
    EdgesAdmittedExactly(b, t, p);
    NodesAdmittedExactly(b, t, p);
  }

  lemma HashesExactly(b: Evidence, t: Evidence, p: Profile)
    ensures HashesAdmitted(b, t, p) <==>
              && ReportsPass(b.verification, t.verification, p)
              && forall m :: ModuleIn(b, m) != ModuleIn(t, m) ==> p.allowRegistryModuleChanges && m in p.registryModules
  {
    hide ChangedModules, ChangedSpecials, ModuleIn;
    SpecialsExactly(b, t, p.specialHashes);
    forall m ensures m in ChangedModules(b, t) <==> ModuleIn(b, m) != ModuleIn(t, m) { ModulesExactly(b, t, m); }
  }

  lemma FilesAdmittedExactly(b: Evidence, t: Evidence, p: Profile)
    ensures FilesAdmitted(b, t, p) <==>
              && (p.allowRuntimeMembershipChange || forall path :: path in Files(b) <==> path in Files(t))
              && forall path :: Changed(Files(b), Files(t), path) ==> FilePasses(p, path, Judged(Files(b), Files(t), path))
  {
    hide Files, Changed, Differing, FilePasses, FileChangeAllowed, Latest, Judged;
    forall path ensures path in Differing(Files(b), Files(t)) <==> Changed(Files(b), Files(t), path) { ChangedExactly(Files(b), Files(t), path); }
    forall path ensures FileChangeAllowed(path, Latest(Files(b), Files(t), path), p) <==> FilePasses(p, path, Judged(Files(b), Files(t), path)) {
      FilesAreJudged(b, t, path);
      FileExactly(p, path, Judged(Files(b), Files(t), path));
    }
  }

  lemma EndExactly(b: Evidence, t: Evidence, p: Profile, id: string)
    ensures NodeChangeAllowed(id, Latest(Nodes(b), Nodes(t), id), p) <==> EndPasses(b, t, p, id)
  {
    hide Nodes, NodePasses, NodeChangeAllowed, Latest, Judged;
    NodesAreJudged(b, t, id);
    NodeExactly(p, id, Judged(Nodes(b), Nodes(t), id));
  }

  lemma EdgesAdmittedExactly(b: Evidence, t: Evidence, p: Profile)
    ensures EdgesAdmitted(b, t, p) <==>
              forall e :: (e in Edges(b)) != (e in Edges(t)) ==>
                p.allowEdgeChanges && (EndPasses(b, t, p, e.source) || EndPasses(b, t, p, e.target))
  {
    hide Nodes, Edges, NodeChangeAllowed, Latest, EndPasses;
    forall id ensures EndpointAllowed(b, t, p, id) <==> EndPasses(b, t, p, id) { EndExactly(b, t, p, id); }
    forall e ensures e in ChangedEdges(b, t) <==> (e in Edges(b)) != (e in Edges(t)) {}
  }

  lemma NodesAdmittedExactly(b: Evidence, t: Evidence, p: Profile)
    ensures NodesAdmitted(b, t, p) <==>
              forall id :: Changed(Nodes(b), Nodes(t), id) ==>
                EndPasses(b, t, p, id) || exists path :: id == "file:" + path && (path in Files(b) || path in Files(t))
  {
    hide Nodes, Files, Changed, Differing, NodeChangeAllowed, Latest, EndPasses, RuntimeNodeIds;
    forall id ensures id in Differing(Nodes(b), Nodes(t)) <==> Changed(Nodes(b), Nodes(t), id) { ChangedExactly(Nodes(b), Nodes(t), id); }
    forall id ensures NodeChangeAllowed(id, Latest(Nodes(b), Nodes(t), id), p) <==> EndPasses(b, t, p, id) { EndExactly(b, t, p, id); }
    forall id ensures id in RuntimeNodeIds(b, t) <==> exists path :: id == "file:" + path && (path in Files(b) || path in Files(t)) {
      RuntimeIdsExactly(b, t, id);
    }
  }

  lemma RuntimeIdsExactly(b: Evidence, t: Evidence, id: string)
    ensures id in RuntimeNodeIds(b, t) <==> exists path :: id == "file:" + path && (path in Files(b) || path in Files(t))
  {
    hide Files;
  }

  // ------------------------------------------------------------------ the empty profile

  /** The reports agree on the four hashes and are both verified. */
  ghost predicate BothStand(b: Dict, t: Dict) {
    && Get(b, "verified") == Bool(true) == Get(t, "verified")
    && Get(b, "registryRootHash") == Get(t, "registryRootHash") && Get(b, "productBoundaryHash") == Get(t, "productBoundaryHash")
    && Get(b, "externalInterfaceRegistryHash") == Get(t, "externalInterfaceRegistryHash")
    && Get(b, "interfaceGovernanceHash") == Get(t, "interfaceGovernanceHash")
  }

  lemma NothingChanged(a: map<string, Dict>, b: map<string, Dict>)
    ensures (forall id :: !Changed(a, b, id)) <==>
              && (forall id :: id in a <==> id in b)
              && forall id, field | id in a && id in b && field != "sourceCommit" :: SameField(a[id], b[id], field)
  {
    hide SameField;
    if forall id :: !Changed(a, b, id) {
      forall id ensures id in a <==> id in b { assert !Changed(a, b, id); }
      forall id, field | id in a && id in b && field != "sourceCommit" ensures SameField(a[id], b[id], field) { assert !Changed(a, b, id); }
    }
  }

  /** Under the empty profile, graphs of file nodes with their own ids pass exactly if both reports are verified
      and agree on the four hashes, the edges and the modules are the same, the ids are the same, and each
      node has the same fields with the same values, save `sourceCommit`. */
  lemma DenyAllExactly(b: Evidence, t: Evidence)
    requires UpdateGateTheorems.Shaped(b) && UpdateGateTheorems.Shaped(t)
    ensures Admitted(b, t, ProfileOf(map[])) <==>
              && BothStand(b.verification, t.verification)
              && Edges(b) == Edges(t) && (forall m :: ModuleIn(b, m) == ModuleIn(t, m))
              && (forall id :: id in Nodes(b) <==> id in Nodes(t))
              && forall id, field | id in Nodes(b) && id in Nodes(t) && field != "sourceCommit" :: SameField(Nodes(b)[id], Nodes(t)[id], field)
  {
    hide Nodes, Edges, ModuleIn, Differing, ChangedModules, ChangedSpecials, Admitted, UpdateGateTheorems.Shaped, ProfileOf, Changed, SameField;
    UpdateGateTheorems.DenyAllMeansEqual(b, t);
    SpecialsExactly(b, t, {});
    forall m ensures m in ChangedModules(b, t) <==> ModuleIn(b, m) != ModuleIn(t, m) { ModulesExactly(b, t, m); }
    forall id ensures id in Differing(Nodes(b), Nodes(t)) <==> Changed(Nodes(b), Nodes(t), id) { ChangedExactly(Nodes(b), Nodes(t), id); }
    assert Differing(Nodes(b), Nodes(t)) == {} <==> forall id :: !Changed(Nodes(b), Nodes(t), id);
    NothingChanged(Nodes(b), Nodes(t));
    assert ChangedModules(b, t) == {} <==> forall m :: ModuleIn(b, m) == ModuleIn(t, m);
  }

  /** Between compiled lineages, the empty profile admits only what was compiled without a finding. */
  lemma DenyAllNeedsCleanLineages(pf: Platform.Platform, i: LineageEvidence.Inputs, j: LineageEvidence.Inputs,
                                  c: LineageEvidence.Compiled, d: LineageEvidence.Compiled,
                                  py: set<string>, fe: set<string>, py': set<string>, fe': set<string>)
    requires LineageEvidence.IsLineage(pf, i, py, fe, c) && LineageEvidence.IsLineage(pf, j, py', fe', d)
    requires Admitted(CompiledGate.Presented(c), CompiledGate.Presented(d), ProfileOf(map[]))
    ensures c.findings == {} && d.findings == {}
  {
    hide LineageEvidence.IsLineage, Admitted, Nodes, Files, Edges, Changed, EndPasses, ModuleIn, FilePasses, Judged, ProfileOf;
    AdmittedExactly(CompiledGate.Presented(c), CompiledGate.Presented(d), ProfileOf(map[]));
    ProfileExactly(map[]);
    LineageDocuments.ReportExactly(pf, i, py, fe, c);
    LineageDocuments.ReportExactly(pf, j, py', fe', d);
  }
}
