/** What an admitted update can and cannot have changed, and when admitted updates compose. */
module UpdateGateTheorems {
  import opened Sorting
  import opened PyText
  import opened Json
  import opened LineageGraph
  import opened UpdateGate

  /** A graph as the lineage compiler emits it: file nodes, and only they, are named `file:{path}`;
      registry nodes are named after their module. */
  ghost predicate Shaped(e: Evidence) {
    forall id | id in Nodes(e) :: ShapedNode(id, Nodes(e)[id])
  }

  ghost predicate ShapedNode(id: string, node: Dict) {
    && (Get(node, "type") == Str("file") <==> "file:" <= id)
    && ("file:" <= id ==> Get(node, "path") == Str(id[5..]) && Stripped(id[5..]) && id[5..] != "")
    && ("registry:" <= id ==> Get(node, "moduleId") == Str(id[9..]))
  }

  lemma {:induction false} NodesAreNotEmpty(items: seq<Json>)
    ensures forall id | id in NodesOf(items).entries :: NodesOf(items).entries[id] != map[]
  {
    if items != [] { NodesAreNotEmpty(items[..|items| - 1]); }
  }

  lemma LatestNode(b: Evidence, t: Evidence, id: string)
    ensures Latest(Nodes(b), Nodes(t), id) ==
              if id in Nodes(t) then Nodes(t)[id] else if id in Nodes(b) then Nodes(b)[id] else map[]
  {
    NodesAreNotEmpty(ItemsOrEmpty(Get(b.graph, "nodes")));
    NodesAreNotEmpty(ItemsOrEmpty(Get(t.graph, "nodes")));
  }

  // ------------------------------------------------------------------ files are their nodes

  lemma {:induction false} FilesOfShaped(order: seq<string>, entries: map<string, Dict>)
    requires forall id | id in order :: id in entries && ShapedNode(id, entries[id])
    ensures forall path :: path in FilesOf(order, entries) <==> "file:" + path in order
    ensures forall path | path in FilesOf(order, entries) :: FilesOf(order, entries)[path] == entries["file:" + path]
  {
    if order != [] {
      var n := |order| - 1;
      var id := order[n];
      FilesOfShaped(order[..n], entries);
      assert order == order[..n] + [id];
      if "file:" <= id {
        StripFixesExactly(id[5..]);
        assert id == "file:" + id[5..];
        assert forall path :: "file:" + path == id ==> path == id[5..] by {
          forall path | "file:" + path == id ensures path == id[5..] { assert path == ("file:" + path)[5..]; }
        }
      } else {
        forall path ensures "file:" + path != id {}
      }
    }
  }

  lemma FilesAreNodes(e: Evidence, path: string)
    requires Shaped(e)
    ensures path in Files(e) <==> "file:" + path in Nodes(e)
    ensures path in Files(e) ==> Files(e)[path] == Nodes(e)["file:" + path]
  {
    var items := ItemsOrEmpty(Get(e.graph, "nodes"));
    NodesWellFormed(items);
    OrderIsKnown(NodesOf(items));
    assert forall id | id in NodesOf(items).order :: id in Nodes(e) && ShapedNode(id, Nodes(e)[id]);
    FilesOfShaped(NodesOf(items).order, NodesOf(items).entries);
    assert "file:" + path in NodesOf(items).order <==> "file:" + path in Elements(NodesOf(items).order);
  }

  lemma FileDiffIsNodeDiff(b: Evidence, t: Evidence, path: string)
    requires Shaped(b) && Shaped(t)
    ensures path in Differing(Files(b), Files(t)) <==> "file:" + path in Differing(Nodes(b), Nodes(t))
    ensures Latest(Files(b), Files(t), path) == Latest(Nodes(b), Nodes(t), "file:" + path)
  {
    hide Files, Nodes, Normalized;
    FilesAreNodes(b, path);
    FilesAreNodes(t, path);
  }

  lemma OnlyFilesAreRuntimeIds(b: Evidence, t: Evidence, id: string)
    requires Shaped(b) && Shaped(t) && id in RuntimeNodeIds(b, t)
    ensures "file:" <= id
  {
  }

  /** On a shaped graph a file node is judged by its own path. */
  lemma NamedByPath(b: Evidence, t: Evidence, id: string)
    requires Shaped(b) && Shaped(t)
    ensures "file:" <= id ==> NamedBy(Latest(Nodes(b), Nodes(t), id), "path", id, "file:") == id[5..]
    ensures "registry:" <= id ==> NamedBy(Latest(Nodes(b), Nodes(t), id), "moduleId", id, "registry:") == id[9..]
  {
    LatestNode(b, t, id);
    assert id in Nodes(t) ==> ShapedNode(id, Nodes(t)[id]);
    assert id in Nodes(b) ==> ShapedNode(id, Nodes(b)[id]);
  }

  // ------------------------------------------------------------------ no silent change

  /** Every node on which the two sides differ was allowed to change, file node or not. */
  lemma NoSilentNodeChange(b: Evidence, t: Evidence, p: Profile, id: string)
    requires Shaped(b) && Shaped(t) && Admitted(b, t, p)
    requires id in Differing(Nodes(b), Nodes(t))
    ensures NodeChangeAllowed(id, Latest(Nodes(b), Nodes(t), id), p)
  {
    hide Differing, FileChangeAllowed, Latest, PrefixAllowed, Nodes, Files, Shaped;
    if "file:" <= id {
      assert id == "file:" + id[5..];
      FileDiffIsNodeDiff(b, t, id[5..]);
      NamedByPath(b, t, id);
    } else if id in RuntimeNodeIds(b, t) {
      OnlyFilesAreRuntimeIds(b, t, id);
    }
  }

  /** The same for every observable difference at once: nodes, edges, modules, special hashes. */
  lemma NoSilentChange(b: Evidence, t: Evidence, p: Profile)
    requires Shaped(b) && Shaped(t) && Admitted(b, t, p)
    ensures forall id | id in Differing(Nodes(b), Nodes(t)) :: NodeChangeAllowed(id, Latest(Nodes(b), Nodes(t), id), p)
    ensures forall e | e in ChangedEdges(b, t) :: EndpointAllowed(b, t, p, e.source) || EndpointAllowed(b, t, p, e.target)
    ensures forall m | m in Modules(b).Keys + Modules(t).Keys :: Get(Modules(b), m) == Get(Modules(t), m) || m in p.registryModules
    ensures forall f | f in SPECIAL_HASH_FIELDS :: Get(b.verification, f) == Get(t.verification, f) || f in p.specialHashes
  {
    forall id | id in Differing(Nodes(b), Nodes(t)) ensures NodeChangeAllowed(id, Latest(Nodes(b), Nodes(t), id), p) {
      NoSilentNodeChange(b, t, p, id);
    }
    assert Admitted(b, t, p);
    hide Admitted, NodeChangeAllowed, Nodes, Edges, Latest, Differing;
    forall m | m in Modules(b).Keys + Modules(t).Keys && Get(Modules(b), m) != Get(Modules(t), m) ensures m in p.registryModules {
      assert m in ChangedModules(b, t);
    }
    forall f | f in SPECIAL_HASH_FIELDS && Get(b.verification, f) != Get(t.verification, f) ensures f in p.specialHashes {
      assert f in ChangedSpecials(b, t);
    }
  }

  /** Under the empty profile the gate is an equality test. */
  lemma DenyAllMeansEqual(b: Evidence, t: Evidence)
    requires Shaped(b) && Shaped(t)
    ensures Admitted(b, t, ProfileOf(map[])) <==>
            && Verified(b) && Verified(t)
            && Differing(Nodes(b), Nodes(t)) == {}
            && Edges(b) == Edges(t)
            && ChangedModules(b, t) == {}
            && ChangedSpecials(b, t) == {}
  {
    var p := ProfileOf(map[]);
    assert p.pathPrefixes == [] && p.nodePrefixes == [] && p.registryModules == {} && p.specialHashes == {};
    forall id, node ensures !NodeChangeAllowed(id, node, p) {}
    hide ProfileOf, NodeChangeAllowed, Nodes, Files, Edges, Modules, Latest, Differing, Shaped, ChangedModules, ChangedSpecials;
    if Admitted(b, t, p) {
      NoSilentChange(b, t, p);
      assert Differing(Nodes(b), Nodes(t)) == {};
      assert ChangedEdges(b, t) == {};
    }
    if Differing(Nodes(b), Nodes(t)) == {} {
      assert Files(b).Keys == Files(t).Keys && Differing(Files(b), Files(t)) == {} by { SameNodesSameFiles(b, t); }
    }
  }

  lemma SameNodesSameFiles(b: Evidence, t: Evidence)
    requires Shaped(b) && Shaped(t) && Differing(Nodes(b), Nodes(t)) == {}
    ensures Files(b).Keys == Files(t).Keys && Differing(Files(b), Files(t)) == {}
  {
    hide Files, Nodes, Normalized, Shaped;
    forall path ensures (path in Files(b) <==> path in Files(t)) && path !in Differing(Files(b), Files(t)) {
      FileDiffIsNodeDiff(b, t, path);
    }
  }

  lemma SameHashesAdmitted(b: Evidence, t: Evidence, p: Profile)
    requires Verified(b) && b.verification == t.verification && b.registry == t.registry
    ensures HashesAdmitted(b, t, p)
  {
  }

  // ------------------------------------------------------------------ exactly when nothing is silent

  function IdOf(node: Dict): string {
    Strip(TextOrEmpty(Get(node, "id")))
  }

  /** Every id that the node loop skips is the id of some file node. */
  ghost predicate SkippedAreFiles(e: Evidence) {
    forall path | path in Files(e) :: exists q :: q in Files(e) && IdOf(Files(e)[q]) == "file:" + path
  }

  /** Under the empty profile, whatever is admitted over this baseline changed no node. */
  ghost predicate NothingIsSilent(e: Evidence) {
    forall t | Admitted(e, t, ProfileOf(map[])) :: Differing(Nodes(e), Nodes(t)) == {}
  }

  lemma {:induction false} NodesHaveIds(items: seq<Json>)
    ensures forall id | id in NodesOf(items).entries :: IdOf(NodesOf(items).entries[id]) == id && id != ""
  {
    hide Strip;
    if items != [] { NodesHaveIds(items[..|items| - 1]); }
  }

  lemma {:induction false} FilesComeFrom(order: seq<string>, entries: map<string, Dict>)
    requires forall id | id in order :: id in entries && IdOf(entries[id]) == id
    ensures forall path | path in FilesOf(order, entries) ::
              && path != "" && PathOf(FilesOf(order, entries)[path]) == path
              && IdOf(FilesOf(order, entries)[path]) in order
              && entries[IdOf(FilesOf(order, entries)[path])] == FilesOf(order, entries)[path]
  {
    hide IdOf, PathOf;
    if order != [] { FilesComeFrom(order[..|order| - 1], entries); }
  }

  /** A file node is the node of its own id. */
  lemma FileIsItsNode(e: Evidence, path: string)
    requires path in Files(e)
    ensures path != "" && Stripped(path)
    ensures var id := IdOf(Files(e)[path]); id in Nodes(e) && Nodes(e)[id] == Files(e)[path]
  {
    var items := ItemsOrEmpty(Get(e.graph, "nodes"));
    NodesWellFormed(items);
    OrderIsKnown(NodesOf(items));
    NodesHaveIds(items);
    FilesComeFrom(NodesOf(items).order, NodesOf(items).entries);
    assert IdOf(Files(e)[path]) in Elements(NodesOf(items).order);
    StripIsStripped(TextOrEmpty(Get(Files(e)[path], "path")));
  }

  lemma IdSurvives(a: Dict, b: Dict)
    requires Normalized(a) == Normalized(b)
    ensures IdOf(a) == IdOf(b)
  {
    assert Get(Normalized(a), "id") == Get(a, "id") && Get(Normalized(b), "id") == Get(b, "id");
  }

  lemma SkippedNodeIsKept(e: Evidence, t: Evidence, path: string)
    requires SkippedAreFiles(e) && Differing(Files(e), Files(t)) == {} && path in Files(e)
    ensures "file:" + path !in Differing(Nodes(e), Nodes(t))
  {
    hide Files, Nodes, Normalized, IdOf, Differing;
    var q :| q in Files(e) && IdOf(Files(e)[q]) == "file:" + path;
    SameAt(Files(e), Files(t), q);
    FileKeepsItsNode(e, t, q);
  }

  lemma SameAt(a: map<string, Dict>, b: map<string, Dict>, key: string)
    requires Differing(a, b) == {} && key in a
    ensures key in b && Normalized(a[key]) == Normalized(b[key])
  {
    assert key !in Differing(a, b);
  }

  lemma FileKeepsItsNode(e: Evidence, t: Evidence, q: string)
    requires q in Files(e) && q in Files(t) && Normalized(Files(e)[q]) == Normalized(Files(t)[q])
    ensures IdOf(Files(e)[q]) !in Differing(Nodes(e), Nodes(t))
  {
    hide Files, Nodes, Normalized, IdOf, Stripped;
    FileIsItsNode(e, q);
    FileIsItsNode(t, q);
    IdSurvives(Files(e)[q], Files(t)[q]);
  }

  /** The id of some file path under which no file node stands: a node there may come or change unseen. */
  lemma SilentChange(e: Evidence, path: string) returns (t: Evidence)
    requires Verified(e) && path in Files(e) && forall q | q in Files(e) :: IdOf(Files(e)[q]) != "file:" + path
    ensures Admitted(e, t, ProfileOf(map[])) && "file:" + path in Differing(Nodes(e), Nodes(t))
  {
    hide Files, Nodes, Edges, IdOf, PathOf, Altered, Differing, Admitted, ProfileOf, Verified;
    var id := "file:" + path;
    FileIdIsId(e, path);
    var was := if id in Nodes(e) then Nodes(e)[id] else map["id" := Str(id)];
    AlteredDiffers(was);
    t := With(e, Altered(was));
    ShadowKeepsFiles(e, Altered(was), id);
    assert id in Differing(Nodes(e), Nodes(t)) by { DiffersAt(Nodes(e), Nodes(t), id, was); }
    OnlySkippedDiffer(e, t, path, Altered(was));
  }

  lemma FileIdIsId(e: Evidence, path: string)
    requires path in Files(e)
    ensures var id := "file:" + path; id in Nodes(e) ==> IdOf(Nodes(e)[id]) == id
    ensures var id := "file:" + path; IdOf(map["id" := Str(id)]) == id && Get(map["id" := Str(id)], "type") == Null
  {
    hide Files, Nodes;
    FileIsItsNode(e, path);
    StripFixesExactly("file:" + path);
    IdsOfNodes(e);
  }

  lemma IdsOfNodes(e: Evidence)
    ensures forall id | id in Nodes(e) :: IdOf(Nodes(e)[id]) == id && id != ""
  {
    NodesHaveIds(ItemsOrEmpty(Get(e.graph, "nodes")));
  }

  lemma DiffersAt(a: map<string, Dict>, b: map<string, Dict>, id: string, was: Dict)
    requires id in b && (id in a ==> a[id] == was) && Normalized(b[id]) != Normalized(was)
    ensures id in Differing(a, b)
  {
  }

  /** The evidence with one more entry at the end of its node list. */
  function With(e: Evidence, node: Dict): Evidence {
    Evidence(e.graph["nodes" := Arr(ItemsOrEmpty(Get(e.graph, "nodes")) + [Obj(node)])], e.verification, e.registry)
  }

  /** The node with one more, or one other, field. */
  function Altered(node: Dict): Dict {
    node["note" := Bool(Get(node, "note") != Bool(true))]
  }

  lemma AlteredDiffers(node: Dict)
    ensures Normalized(Altered(node)) != Normalized(node) && IdOf(Altered(node)) == IdOf(node)
    ensures Get(Altered(node), "type") == Get(node, "type") && PathOf(Altered(node)) == PathOf(node)
  {
    assert Get(Normalized(Altered(node)), "note") == Get(Altered(node), "note");
    assert Get(Normalized(node), "note") == Get(node, "note");
  }

  lemma AppendNode(items: seq<Json>, node: Dict, id: string)
    requires IdOf(node) == id != ""
    ensures var u, v := NodesOf(items), NodesOf(items + [Obj(node)]);
            v == NodeTable(if id in u.entries then u.order else u.order + [id], u.entries[id := node])
  {
    hide Strip;
    assert (items + [Obj(node)])[..|items + [Obj(node)]| - 1] == items;
  }

  /** Two tables that differ in one node which is no file of either have the same files. */
  lemma {:induction false} SameFilesBeside(order: seq<string>, a: map<string, Dict>, b: map<string, Dict>, id: string)
    requires forall x | x in order :: x in a && x in b && IdOf(a[x]) == x && (x == id || a[x] == b[x])
    requires id in order ==> IdOf(b[id]) == id && Get(b[id], "type") == Get(a[id], "type") && PathOf(b[id]) == PathOf(a[id])
    ensures var f, g := FilesOf(order, a), FilesOf(order, b);
            && f.Keys == g.Keys
            && forall path | path in f :: if IdOf(f[path]) == id then IdOf(g[path]) == id else g[path] == f[path]
  {
    hide IdOf, PathOf;
    if order != [] { SameFilesBeside(order[..|order| - 1], a, b, id); }
  }

  lemma ShadowKeepsFiles(e: Evidence, node: Dict, id: string)
    requires IdOf(node) == id != ""
    requires if id in Nodes(e) then Get(node, "type") == Get(Nodes(e)[id], "type") && PathOf(node) == PathOf(Nodes(e)[id])
             else Get(node, "type") == Null
    requires forall q | q in Files(e) :: IdOf(Files(e)[q]) != id
    ensures Files(With(e, node)) == Files(e) && Nodes(With(e, node)) == Nodes(e)[id := node]
    ensures Edges(With(e, node)) == Edges(e)
  {
    hide IdOf, PathOf, FilesOf, EdgesOf;
    var items := ItemsOrEmpty(Get(e.graph, "nodes"));
    var u := NodesOf(items);
    AppendNode(items, node, id);
    NodesWellFormed(items);
    OrderIsKnown(u);
    NodesHaveIds(items);
    assert Files(e) == FilesOf(u.order, u.entries) && Nodes(e) == u.entries;
    hide NodesOf, Files, Nodes;
    TableKeepsFiles(u, node, id);
    SameTable(e, node, u, if id in u.entries then u.order else u.order + [id], u.entries[id := node]);
  }

  lemma SameTable(e: Evidence, node: Dict, u: NodeTable, order: seq<string>, entries: map<string, Dict>)
    requires NodesOf(ItemsOrEmpty(Get(e.graph, "nodes")) + [Obj(node)]) == NodeTable(order, entries)
    requires forall x | x in order :: x in entries
    ensures Files(With(e, node)) == FilesOf(order, entries) && Nodes(With(e, node)) == entries
    ensures Edges(With(e, node)) == Edges(e)
  {
  }

  lemma TableKeepsFiles(u: NodeTable, node: Dict, id: string)
    requires Elements(u.order) == u.entries.Keys && forall x | x in u.order :: x in u.entries && IdOf(u.entries[x]) == x
    requires IdOf(node) == id
    requires if id in u.entries then Get(node, "type") == Get(u.entries[id], "type") && PathOf(node) == PathOf(u.entries[id])
             else Get(node, "type") == Null
    requires forall q | q in FilesOf(u.order, u.entries) :: IdOf(FilesOf(u.order, u.entries)[q]) != id
    ensures var order, entries := if id in u.entries then u.order else u.order + [id], u.entries[id := node];
            (forall x | x in order :: x in entries) && FilesOf(order, entries) == FilesOf(u.order, u.entries)
  {
    hide IdOf, PathOf;
    assert forall x :: x in u.order <==> x in Elements(u.order);
    var entries := u.entries[id := node];
    SameFilesBeside(u.order, u.entries, entries, id);
    assert FilesOf(u.order, entries) == FilesOf(u.order, u.entries);
    if id !in u.entries {
      assert (u.order + [id])[..|u.order + [id]| - 1] == u.order;
    }
  }

  lemma OnlySkippedDiffer(e: Evidence, t: Evidence, path: string, node: Dict)
    requires Verified(e) && e.verification == t.verification && e.registry == t.registry
    requires Files(t) == Files(e) && path in Files(e) && Edges(e) == Edges(t)
    requires Nodes(t) == Nodes(e)["file:" + path := node]
    ensures Admitted(e, t, ProfileOf(map[]))
  {
    hide Nodes, Files, Edges, NodeChangeAllowed, FileChangeAllowed, Latest, ProfileOf, HashesAdmitted;
    SameHashesAdmitted(e, t, ProfileOf(map[]));
    assert Differing(Files(e), Files(t)) == {} && ChangedEdges(e, t) == {};
    assert "file:" + path in RuntimeNodeIds(e, t);
  }

  /** A baseline outside the shape: the one file `x` stands under the id `n`. A node `file:x` appears
      in the update, and even the empty profile admits it. */
  lemma UnshapedChangeIsSilent() returns (e: Evidence, t: Evidence)
    ensures Admitted(e, t, ProfileOf(map[])) && "file:x" in Differing(Nodes(e), Nodes(t))
  {
    var node := map["id" := Str("n"), "type" := Str("file"), "path" := Str("x")];
    e := Evidence(map["nodes" := Arr([Obj(node)])], map["verified" := Bool(true)], map[]);
    OneFile(e, node);
    hide Files, Nodes, Admitted, Differing, ProfileOf;
    t := SilentChange(e, "x");
    assert "file:" + "x" == "file:x";
  }

  lemma OneFile(e: Evidence, node: Dict)
    requires Get(e.graph, "nodes") == Arr([Obj(node)]) && Get(node, "type") == Str("file")
    requires Get(node, "id") == Str("n") && Get(node, "path") == Str("x")
    ensures Files(e) == map["x" := node] && IdOf(node) == "n"
  {
    StripFixesExactly("n");
    StripFixesExactly("x");
    hide Strip;
    assert [Obj(node)][..0] == [] && ["n"][..0] == [];
    assert NodesOf([Obj(node)]) == NodeTable(["n"], map["n" := node]);
    assert FilesOf(["n"][..0], map["n" := node]) == map[];
    assert FilesOf(["n"], map["n" := node]) == map["x" := node];
  }

  /** Exactly the baselines over which the deny-all gate lets no node change unseen: unverified ones,
      over which it admits nothing, and those whose skipped ids all belong to file nodes. */
  lemma NothingIsSilentExactly(e: Evidence)
    ensures NothingIsSilent(e) <==> !Verified(e) || SkippedAreFiles(e)
  {
    var p := ProfileOf(map[]);
    assert p.requireBaselineVerified && !p.allowRuntimeMembershipChange;
    assert p.pathPrefixes == [] && p.nodePrefixes == [] && p.registryModules == {};
    forall id, node ensures !NodeChangeAllowed(id, node, p) {}
    forall path, node ensures !FileChangeAllowed(path, node, p) {}
    hide ProfileOf, NodeChangeAllowed, FileChangeAllowed, Nodes, Files, Edges, Latest, Differing, SkippedAreFiles, HashesAdmitted, EdgesAdmitted;
    if Verified(e) && SkippedAreFiles(e) {
      forall t | Admitted(e, t, p) ensures Differing(Nodes(e), Nodes(t)) == {} {
        assert Differing(Files(e), Files(t)) == {};
        forall id ensures id !in Differing(Nodes(e), Nodes(t)) {
          if id in Differing(Nodes(e), Nodes(t)) {
            assert id in RuntimeNodeIds(e, t);
            var path :| path in Files(e).Keys + Files(t).Keys && id == "file:" + path;
            SkippedNodeIsKept(e, t, path);
          }
        }
      }
    }
    if Verified(e) && !SkippedAreFiles(e) {
      var path := AnUnshownPath(e);
      var t := SilentChange(e, path);
      assert Differing(Nodes(e), Nodes(t)) != {};
    }
    if !Verified(e) {
      forall t ensures !Admitted(e, t, p) { NeedsBaseline(e, t, p); }
    }
  }

  lemma NeedsBaseline(e: Evidence, t: Evidence, p: Profile)
    requires p.requireBaselineVerified && !Verified(e)
    ensures !Admitted(e, t, p)
  {
  }

  lemma AnUnshownPath(e: Evidence) returns (path: string)
    requires !SkippedAreFiles(e)
    ensures path in Files(e) && forall q | q in Files(e) :: IdOf(Files(e)[q]) != "file:" + path
  {
    path :| path in Files(e) && !exists q :: q in Files(e) && IdOf(Files(e)[q]) == "file:" + path;
  }

  // ------------------------------------------------------------------ larger profiles admit more

  ghost predicate Enlarges(p: Profile, q: Profile) {
    && (q.requireBaselineVerified ==> p.requireBaselineVerified)
    && (q.requireTargetVerified ==> p.requireTargetVerified)
    && (q.requireRuntimeHashStable ==> p.requireRuntimeHashStable)
    && (q.requireGraphHashStable ==> p.requireGraphHashStable)
    && (p.allowRuntimeMembershipChange ==> q.allowRuntimeMembershipChange)
    && (p.allowRegistryModuleChanges ==> q.allowRegistryModuleChanges)
    && (p.allowEdgeChanges ==> q.allowEdgeChanges)
    && (forall x | x in p.pathPrefixes :: x in q.pathPrefixes)
    && (forall x | x in p.nodePrefixes :: x in q.nodePrefixes)
    && p.registryModules <= q.registryModules && p.specialHashes <= q.specialHashes
  }

  lemma EnlargingKeepsAdmission(b: Evidence, t: Evidence, p: Profile, q: Profile)
    requires Enlarges(p, q) && Admitted(b, t, p)
    ensures Admitted(b, t, q)
  {
    forall value, prefixes, prefixes' | (forall x | x in prefixes :: x in prefixes') && PrefixAllowed(value, prefixes)
      ensures PrefixAllowed(value, prefixes') {}
    hide PrefixAllowed;
    forall path, node | FileChangeAllowed(path, node, p) ensures FileChangeAllowed(path, node, q) {
      if Owners(node) * p.registryModules != {} {
        var o :| o in Owners(node) * p.registryModules;
        assert o in Owners(node) * q.registryModules;
      }
    }
    hide FileChangeAllowed;
    forall id, node | NodeChangeAllowed(id, node, p) ensures NodeChangeAllowed(id, node, q) {}
    hide NodeChangeAllowed, Nodes, Files, Edges, Latest, Differing;
  }

  // ------------------------------------------------------------------ composition

  /** If the verdict on a file admits it over one of two steps, it admits it over both together. */
  ghost predicate VerdictCarries(a: Evidence, b: Evidence, c: Evidence, p: Profile, path: string) {
    FileChangeAllowed(path, Latest(Files(a), Files(b), path), p) || FileChangeAllowed(path, Latest(Files(b), Files(c), path), p)
    ==> FileChangeAllowed(path, Latest(Files(a), Files(c), path), p)
  }

  /** The comparison of two sides asks for the verdict on a file when the file differs, or when it is
      an endpoint of an edge that differs. */
  ghost predicate Asked(a: Evidence, c: Evidence, path: string) {
    path in Differing(Files(a), Files(c)) || exists e :: e in ChangedEdges(a, c) && (e.source == "file:" + path || e.target == "file:" + path)
  }

  lemma EndpointComposes(a: Evidence, b: Evidence, c: Evidence, p: Profile, id: string)
    requires Shaped(a) && Shaped(b) && Shaped(c) && ("file:" <= id ==> VerdictCarries(a, b, c, p, id[5..]))
    requires EndpointAllowed(a, b, p, id) || EndpointAllowed(b, c, p, id)
    ensures EndpointAllowed(a, c, p, id)
  {
    hide PrefixAllowed, FileChangeAllowed, Nodes, Files, Latest, NamedBy, Shaped;
    NamedByPath(a, b, id);
    NamedByPath(b, c, id);
    NamedByPath(a, c, id);
    if "file:" <= id {
      var path := id[5..];
      assert id == "file:" + path;
      FileDiffIsNodeDiff(a, b, path);
      FileDiffIsNodeDiff(b, c, path);
      FileDiffIsNodeDiff(a, c, path);
    }
  }

  lemma FilesCompose(a: Evidence, b: Evidence, c: Evidence, p: Profile)
    requires FilesAdmitted(a, b, p) && FilesAdmitted(b, c, p)
    requires forall path | Asked(a, c, path) :: VerdictCarries(a, b, c, p, path)
    ensures FilesAdmitted(a, c, p)
  {
    hide FileChangeAllowed, Files, Latest;
    forall path | path in Differing(Files(a), Files(c))
      ensures FileChangeAllowed(path, Latest(Files(a), Files(c), path), p)
    {
      assert path in Differing(Files(a), Files(b)) || path in Differing(Files(b), Files(c));
      assert Asked(a, c, path) && VerdictCarries(a, b, c, p, path);
    }
  }

  lemma NodesCompose(a: Evidence, b: Evidence, c: Evidence, p: Profile)
    requires Shaped(a) && Shaped(b) && Shaped(c) && Admitted(a, b, p) && Admitted(b, c, p)
    ensures NodesAdmitted(a, c, p)
  {
    hide Admitted, NodeChangeAllowed, Nodes, Latest, Shaped, VerdictCarries;
    forall id | id in Differing(Nodes(a), Nodes(c)) && id !in RuntimeNodeIds(a, c)
      ensures NodeChangeAllowed(id, Latest(Nodes(a), Nodes(c), id), p)
    {
      DifferingFilesAreRuntime(a, c, id);
      if id in Differing(Nodes(a), Nodes(b)) {
        NoSilentNodeChange(a, b, p, id);
      } else {
        assert id in Differing(Nodes(b), Nodes(c));
        NoSilentNodeChange(b, c, p, id);
      }
      EndpointComposes(a, b, c, p, id);
    }
  }

  lemma DifferingFilesAreRuntime(a: Evidence, c: Evidence, id: string)
    requires Shaped(a) && Shaped(c) && id in Differing(Nodes(a), Nodes(c))
    ensures "file:" <= id ==> id in RuntimeNodeIds(a, c)
  {
    hide Files, Nodes, Shaped;
    if "file:" <= id {
      assert id == "file:" + id[5..];
      FilesAreNodes(a, id[5..]);
      FilesAreNodes(c, id[5..]);
    }
  }

  lemma EdgesCompose(a: Evidence, b: Evidence, c: Evidence, p: Profile)
    requires Shaped(a) && Shaped(b) && Shaped(c)
    requires EdgesAdmitted(a, b, p) && EdgesAdmitted(b, c, p)
    requires forall path | Asked(a, c, path) :: VerdictCarries(a, b, c, p, path)
    ensures EdgesAdmitted(a, c, p)
  {
    hide Edges, EndpointAllowed, Shaped, VerdictCarries;
    forall e | e in ChangedEdges(a, c)
      ensures p.allowEdgeChanges && (EndpointAllowed(a, c, p, e.source) || EndpointAllowed(a, c, p, e.target))
    {
      assert e in ChangedEdges(a, b) || e in ChangedEdges(b, c);
      AskedAtEnd(a, c, e, e.source);
      AskedAtEnd(a, c, e, e.target);
      if EndpointAllowed(a, b, p, e.source) || EndpointAllowed(b, c, p, e.source) {
        EndpointComposes(a, b, c, p, e.source);
      } else {
        EndpointComposes(a, b, c, p, e.target);
      }
    }
  }

  lemma AskedAtEnd(a: Evidence, c: Evidence, e: Edge, id: string)
    requires e in ChangedEdges(a, c) && (id == e.source || id == e.target)
    ensures "file:" <= id ==> Asked(a, c, id[5..])
  {
    if "file:" <= id { assert id == "file:" + id[5..]; }
  }

  lemma HashesCompose(a: Evidence, b: Evidence, c: Evidence, p: Profile)
    requires HashesAdmitted(a, b, p) && HashesAdmitted(b, c, p)
    ensures HashesAdmitted(a, c, p)
  {
    hide Modules;
    assert ChangedSpecials(a, c) <= ChangedSpecials(a, b) + ChangedSpecials(b, c);
    forall m | m in ChangedModules(a, c) ensures m in ChangedModules(a, b) || m in ChangedModules(b, c) {}
  }

  /** Two admitted updates make an admitted update as soon as the verdicts that their composition asks
      for carry over. Nodes that are no files, modules and hashes compose by themselves. */
  lemma UpdatesCompose(a: Evidence, b: Evidence, c: Evidence, p: Profile)
    requires Shaped(a) && Shaped(b) && Shaped(c) && Admitted(a, b, p) && Admitted(b, c, p)
    requires forall path | Asked(a, c, path) :: VerdictCarries(a, b, c, p, path)
    ensures Admitted(a, c, p)
  {
    NodesCompose(a, b, c, p);
    hide Shaped, HashesAdmitted, FilesAdmitted, EdgesAdmitted, NodesAdmitted, Asked, VerdictCarries;
    HashesCompose(a, b, c, p);
    FilesCompose(a, b, c, p);
    EdgesCompose(a, b, c, p);
  }

  /** Where the three sides have the same file paths, every verdict carries over. */
  lemma SameFilesCarry(a: Evidence, b: Evidence, c: Evidence, p: Profile, path: string)
    requires Shaped(a) && Shaped(b) && Shaped(c) && Files(a).Keys == Files(b).Keys == Files(c).Keys
    requires FilesAdmitted(b, c, p)
    ensures VerdictCarries(a, b, c, p, path)
  {
    hide PrefixAllowed, Nodes, Files, Shaped;
    FileIsNotEmpty(b, path);
    FileIsNotEmpty(c, path);
    if path in Files(b) {
      if Normalized(Files(b)[path]) == Normalized(Files(c)[path]) {
        assert Get(Normalized(Files(b)[path]), "registryModules") == Get(Normalized(Files(c)[path]), "registryModules");
      } else {
        assert path in Differing(Files(b), Files(c));
      }
    }
  }

  lemma FileIsNotEmpty(e: Evidence, path: string)
    requires Shaped(e)
    ensures path in Files(e) ==> Files(e)[path] != map[]
  {
    FilesAreNodes(e, path);
    NodesAreNotEmpty(ItemsOrEmpty(Get(e.graph, "nodes")));
  }
}
