/** Which update requests the planner accepts and what its plan allows, told on the fields of the registry,
    the policy and the request. */
module LocatorContract {
  import opened Sorting
  import opened TextOrder
  import opened PyText
  import opened Json
  import opened Wrappers
  import opened UpdateLocator
  import LineageContract

  // ------------------------------------------------------------------ lists and paths

  /** A missing list, or a list of texts that are not empty, each named once or more. */
  ghost predicate Lists(j: Json, texts: set<string>) {
    || (j == Null && texts == {})
    || (j.Arr? && forall item :: (item in j.items ==> item.Str? && item.s in texts) && (item.Str? && item.s in texts ==> item in j.items && item.s != ""))
  }

  lemma ListsExactly(j: Json, texts: set<string>)
    ensures TextSet(j) == Some(texts) <==> Lists(j, texts)
  {
    if j.Arr? && Lists(j, texts) {
      var found := set item | item in j.items :: item.s;
      forall text ensures text in texts <==> text in found {
        if text in texts { assert Str(text) in j.items; }
      }
      assert found == texts;
    }
    if j.Arr? && TextSet(j) == Some(texts) {
      forall item ensures (item in j.items ==> item.Str? && item.s in texts) && (item.Str? && item.s in texts ==> item in j.items && item.s != "") {}
    }
  }

  /** The path is the prefix, or lies below the prefix less its trailing slashes. */
  ghost predicate UnderPrefix(path: string, prefix: string) {
    path == prefix || exists stem :: LineageContract.LessSlashes(prefix, stem) && stem + "/" <= path
  }

  ghost predicate Under(path: string, prefixes: set<string>) {
    exists prefix :: prefix in prefixes && UnderPrefix(path, prefix)
  }

  lemma UnderExactly(path: string, prefixes: set<string>)
    ensures PolicyAllows(path, prefixes) <==> Under(path, prefixes)
  {
    hide RStripSlash, LineageContract.LessSlashes;
    forall prefix ensures PrefixAdmits(path, prefix) <==> UnderPrefix(path, prefix) {
      forall stem ensures stem == RStripSlash(prefix) <==> LineageContract.LessSlashes(prefix, stem) { LineageContract.RStripExactly(prefix, stem); }
    }
    hide PrefixAdmits, UnderPrefix;
  }

  /** The file of a module name: dots become slashes. */
  ghost predicate FileOfModule(name: string, path: string) {
    exists body :: path == body + ".py" && |body| == |name| && forall k | 0 <= k < |name| :: body[k] == if name[k] == '.' then '/' else name[k]
  }

  /** The file in which a `module:symbol` runner is. */
  ghost predicate RunsIn(runner: string, path: string) {
    exists name, symbol :: runner == name + ":" + symbol && ':' !in name && Strip(name) != "" && FileOfModule(Strip(name), path)
  }

  lemma RunnerExactly(runner: string, path: string)
    ensures RunnerPath(runner) == Some(path) <==> RunsIn(runner, path)
  {
    hide Strip;
    var n := IndexOf(runner, ':');
    if n < |runner| {
      assert runner == runner[..n] + ":" + runner[n + 1..];
      FileExactly(Strip(runner[..n]), path);
    }
    if name, symbol :| runner == name + ":" + symbol && ':' !in name && Strip(name) != "" && FileOfModule(Strip(name), path) {
      ColonIs(runner, name, symbol);
      FileExactly(Strip(name), path);
    }
  }

  lemma FileExactly(name: string, path: string)
    ensures FileOfModule(name, path) <==> path == DotsToSlashes(name) + ".py"
  {
    if body :| path == body + ".py" && |body| == |name| && forall k | 0 <= k < |name| :: body[k] == if name[k] == '.' then '/' else name[k] {
      assert body == DotsToSlashes(name);
    }
  }

  lemma ColonIs(runner: string, name: string, symbol: string)
    requires runner == name + ":" + symbol && ':' !in name
    ensures IndexOf(runner, ':') == |name| < |runner| && runner[..|name|] == name
  {
    var n := IndexOf(runner, ':');
    assert runner[|name|] == ':';
    assert forall k | 0 <= k < |name| :: runner[k] == name[k] && name[k] in name;
    assert forall k | 0 <= k < n :: runner[k] == runner[..n][k] && runner[k] in runner[..n];
  }

  // ------------------------------------------------------------------ requests

  /** The profile that is asked for: the caller's, or the request's, or the policy's default. */
  ghost predicate AsksFor(profileName: string, request: Dict, policy: Dict, name: string) {
    if profileName != "" then name == profileName
    else if Truthy(Get(request, "policyProfile")) then Get(request, "policyProfile") == Str(name)
    else Get(policy, "defaultProfile") == Str(name)
  }

  /** Schema, modules, profile and targets of an acceptable request. */
  lemma ContextExactly(registry: Dict, policy: Dict, request: Dict, profileName: string, c: Context)
    ensures ContextOf(registry, policy, request, profileName) == Some(c) <==>
              && Get(request, "schema") == Str("z.update_request.v1")
              && Get(registry, "modules") == Obj(c.modules) && c.modules != map[]
              && Get(request, "targets") == Arr(c.targets) && c.targets != []
              && Get(policy, "profiles").Obj?
              && (exists name :: AsksFor(profileName, request, policy, name) && name in Get(policy, "profiles").fields &&
                    Get(policy, "profiles").fields[name] == Obj(c.profile))
              && Lists(Get(c.profile, "allowedRegistryModules"), c.allowed) && Lists(Get(c.profile, "allowedRuntimePathPrefixes"), c.prefixes)
  {
    hide TextSet, Lists, Truthy, Get;
    forall j, texts ensures TextSet(j) == Some(texts) <==> Lists(j, texts) { ListsExactly(j, texts); }
    if ContextOf(registry, policy, request, profileName) == Some(c) {
      var name := if profileName != "" then profileName
                  else if Truthy(Get(request, "policyProfile")) then Get(request, "policyProfile").s else Get(policy, "defaultProfile").s;
      assert AsksFor(profileName, request, policy, name);
    }
  }

  /** A target names modules that exist and are allowed, at least one, and evidence inside the policy. */
  ghost predicate TargetFine(target: Json, modules: Dict, allowed: set<string>, prefixes: set<string>) {
    target.Obj? && exists ids, evidence ::
      && Lists(Get(target.fields, "registryModules"), ids) && Lists(Get(target.fields, "evidencePaths"), evidence)
      && ids != {} && (forall id | id in ids :: id in modules && id in allowed) && forall path | path in evidence :: Under(path, prefixes)
  }

  lemma TargetExactly(target: Json, modules: Dict, allowed: set<string>, prefixes: set<string>)
    ensures TargetAccepted(target, modules, allowed, prefixes) <==> TargetFine(target, modules, allowed, prefixes)
  {
    hide TextSet, Lists, PolicyAllows, Under, Get;
    forall j, texts ensures TextSet(j) == Some(texts) <==> Lists(j, texts) { ListsExactly(j, texts); }
    forall path ensures PolicyAllows(path, prefixes) <==> Under(path, prefixes) { UnderExactly(path, prefixes); }
    if TargetAccepted(target, modules, allowed, prefixes) {
      assert Lists(Get(target.fields, "registryModules"), TextSet(Get(target.fields, "registryModules")).value);
      assert Lists(Get(target.fields, "evidencePaths"), TextSet(Get(target.fields, "evidencePaths")).value);
    }
  }

  /** A target of the request lists the text. */
  ghost predicate SomeTargetLists(targets: seq<Json>, field: string, text: string) {
    exists t, texts :: t in targets && t.Obj? && Lists(Get(t.fields, field), texts) && text in texts
  }

  lemma {:induction false} ChosenExactly(targets: seq<Json>, field: string, text: string)
    ensures text in Chosen(targets, field) <==> SomeTargetLists(targets, field, text)
  {
    hide TextSet, Lists, Get;
    if targets != [] {
      var n := |targets| - 1;
      ChosenExactly(targets[..n], field, text);
      forall j, texts ensures TextSet(j) == Some(texts) <==> Lists(j, texts) { ListsExactly(j, texts); }
      assert forall t :: t in targets <==> t in targets[..n] || t == targets[n];
      if targets[n].Obj? && TextSet(Get(targets[n].fields, field)).Some? {
        assert Lists(Get(targets[n].fields, field), TextSet(Get(targets[n].fields, field)).value);
      }
    }
  }

  // ------------------------------------------------------------------ modules

  /** The module's record lists the text under the field. */
  ghost predicate ModuleLists(modules: Dict, id: string, field: string, text: string) {
    id in modules && modules[id].Obj? && exists texts :: Lists(Get(modules[id].fields, field), texts) && text in texts
  }

  /** A record whose three lists are lists of text. */
  ghost predicate RecordFine(j: Json) {
    && j.Obj? && (exists texts :: Lists(Get(j.fields, "implementationPaths"), texts)) && (exists texts :: Lists(Get(j.fields, "schemaIds"), texts))
    && exists texts :: Lists(Get(j.fields, "fieldIds"), texts)
  }

  lemma RecordExactly(j: Json)
    ensures ModuleAccepted(j) <==> RecordFine(j)
  {
    hide TextSet, Lists, Get;
    forall k, texts ensures TextSet(k) == Some(texts) <==> Lists(k, texts) { ListsExactly(k, texts); }
    if ModuleAccepted(j) {
      assert Lists(Get(j.fields, "implementationPaths"), TextSet(Get(j.fields, "implementationPaths")).value);
      assert Lists(Get(j.fields, "schemaIds"), TextSet(Get(j.fields, "schemaIds")).value);
      assert Lists(Get(j.fields, "fieldIds"), TextSet(Get(j.fields, "fieldIds")).value);
    }
  }

  /** A file of the module: one of its implementation paths, or the one its runner is in. */
  ghost predicate FileOf(modules: Dict, id: string, path: string) {
    ModuleLists(modules, id, "implementationPaths", path) || (id in modules && modules[id].Obj? && RunsIn(TextOrEmpty(Get(modules[id].fields, "runner")), path))
  }

  lemma FilesOfModule(modules: Dict, id: string, path: string)
    requires id in modules && ModuleAccepted(modules[id])
    ensures path in ModulePaths(modules[id]) <==> FileOf(modules, id, path)
  {
    hide TextSet, Lists, Get, RunnerPath, RunsIn, TextOrEmpty;
    forall j, texts ensures TextSet(j) == Some(texts) <==> Lists(j, texts) { ListsExactly(j, texts); }
    RunnerExactly(TextOrEmpty(Get(modules[id].fields, "runner")), path);
    assert Lists(Get(modules[id].fields, "implementationPaths"), TextSet(Get(modules[id].fields, "implementationPaths")).value);
  }

  lemma TextsOfModule(modules: Dict, id: string, field: string, text: string)
    requires id in modules && ModuleAccepted(modules[id]) && field in MODULE_FIELDS
    ensures text in TextsOf(modules, id, field) <==> ModuleLists(modules, id, field, text)
  {
    hide TextSet, Lists, Get;
    forall j, texts ensures TextSet(j) == Some(texts) <==> Lists(j, texts) { ListsExactly(j, texts); }
    assert Lists(Get(modules[id].fields, field), TextSet(Get(modules[id].fields, field)).value);
  }

  /** The module and a selected one list the same text under the field. */
  ghost predicate SharesText(modules: Dict, selected: set<string>, id: string, field: string, text: string) {
    ModuleLists(modules, id, field, text) && exists other :: other in selected && ModuleLists(modules, other, field, text)
  }

  lemma SharedExactly(modules: Dict, selected: set<string>, id: string, field: string, text: string)
    requires AllModulesAccepted(modules) && selected <= modules.Keys && field in MODULE_FIELDS && id in modules
    ensures text in Shared(modules, selected, id, field) <==> SharesText(modules, selected, id, field, text)
  {
    hide ModuleAccepted, TextsOf, ModuleLists;
    forall other | other in modules ensures text in TextsOf(modules, other, field) <==> ModuleLists(modules, other, field, text) {
      TextsOfModule(modules, other, field, text);
    }
  }

  /** A related module is not selected, and its three lists are exactly what it shares with the selection; one is not empty. */
  ghost predicate RelatedSays(modules: Dict, selected: set<string>, x: Related) {
    && x.id in modules && x.id !in selected
    && Ascending(x.fieldIds, Less) && (forall text :: text in x.fieldIds <==> SharesText(modules, selected, x.id, "fieldIds", text))
    && Ascending(x.schemaIds, Less) && (forall text :: text in x.schemaIds <==> SharesText(modules, selected, x.id, "schemaIds", text))
    && Ascending(x.paths, Less) && (forall text :: text in x.paths <==> SharesText(modules, selected, x.id, "implementationPaths", text))
    && (x.fieldIds != [] || x.schemaIds != [] || x.paths != [])
  }

  lemma RelatedExactly(modules: Dict, selected: set<string>, x: Related)
    requires AllModulesAccepted(modules) && selected <= modules.Keys
    ensures IsRelated(modules, selected, x) <==> RelatedSays(modules, selected, x)
  {
    hide ModuleAccepted, Shared, SharesText, Less, Ascending, SortText;
    if x.id in modules {
      SharedListing(modules, selected, x.id, "fieldIds", x.fieldIds);
      SharedListing(modules, selected, x.id, "schemaIds", x.schemaIds);
      SharedListing(modules, selected, x.id, "implementationPaths", x.paths);
      assert SharesSomething(modules, selected, x.id) <==>
        Shared(modules, selected, x.id, "fieldIds") != {} || Shared(modules, selected, x.id, "schemaIds") != {} ||
        Shared(modules, selected, x.id, "implementationPaths") != {};
    }
  }

  lemma SharedListing(modules: Dict, selected: set<string>, id: string, field: string, listing: seq<string>)
    requires AllModulesAccepted(modules) && selected <= modules.Keys && field in MODULE_FIELDS && id in modules
    ensures listing == SortText(Shared(modules, selected, id, field)) <==>
              Ascending(listing, Less) && forall text :: text in listing <==> SharesText(modules, selected, id, field, text)
    ensures listing == SortText(Shared(modules, selected, id, field)) ==> (listing != [] <==> Shared(modules, selected, id, field) != {})
  {
    hide ModuleAccepted, Shared, SharesText, Less, Ascending, SortText;
    var shared := Shared(modules, selected, id, field);
    forall text ensures text in shared <==> SharesText(modules, selected, id, field, text) { SharedExactly(modules, selected, id, field, text); }
    forall text ensures text in listing <==> text in Elements(listing) {}
    if Ascending(listing, Less) && forall text :: text in listing <==> SharesText(modules, selected, id, field, text) {
      assert Elements(listing) == shared;
      SortTextUnique(listing, shared);
    }
    assert Elements(SortText(shared)) == shared && |SortText(shared)| == |shared|;
    if shared != {} { var text :| text in shared; assert text in Elements(SortText(shared)); }
  }

  // ------------------------------------------------------------------ plans

  /** A file of a module that some target selects. */
  ghost predicate RegisteredFile(c: Context, path: string) {
    exists id :: SomeTargetLists(c.targets, "registryModules", id) && FileOf(c.modules, id, path)
  }

  /** What a plan says: the selected modules, the evidence, the files that may be edited, those that may only
      be read, and the modules that share something with the selection. */
  ghost predicate PlanSays(c: Context, plan: Plan) {
    && (forall t | t in c.targets :: TargetFine(t, c.modules, c.allowed, c.prefixes)) && (forall id | id in c.modules :: RecordFine(c.modules[id]))
    && Ascending(plan.selectedModules, Less) && (forall id :: id in plan.selectedModules <==> SomeTargetLists(c.targets, "registryModules", id))
    && Ascending(plan.evidencePaths, Less) && (forall path :: path in plan.evidencePaths <==> SomeTargetLists(c.targets, "evidencePaths", path))
    && Ascending(plan.editablePaths, Less) && Ascending(plan.readOnlyPaths, Less)
    && (forall path :: path in plan.editablePaths <==>
          SomeTargetLists(c.targets, "evidencePaths", path) || (RegisteredFile(c, path) && Under(path, c.prefixes)))
    && (forall path :: path in plan.readOnlyPaths <==> RegisteredFile(c, path) && !Under(path, c.prefixes))
    && AscendingIds(plan.relatedModules)
    && forall x :: x in plan.relatedModules <==> RelatedSays(c.modules, Chosen(c.targets, "registryModules"), x)
  }

  /** The plan that comes out is the one plan that says so; none comes out exactly if there is no such plan. */
  lemma PlanExactly(c: Context, plan: Plan)
    ensures PlanFor(c, plan) <==> PlanSays(c, plan)
  {
    hide TargetAccepted, TargetFine, ModuleAccepted, RecordFine, SomeTargetLists, Under, PolicyAllows, RegisteredFile, RelatedSays, IsRelated, Chosen,
         OwnedBy, Less, Ascending, AscendingIds, SortText;
    forall t ensures TargetAccepted(t, c.modules, c.allowed, c.prefixes) <==> TargetFine(t, c.modules, c.allowed, c.prefixes) {
      TargetExactly(t, c.modules, c.allowed, c.prefixes);
    }
    forall id | id in c.modules ensures ModuleAccepted(c.modules[id]) <==> RecordFine(c.modules[id]) { RecordExactly(c.modules[id]); }
    forall path ensures PolicyAllows(path, c.prefixes) <==> Under(path, c.prefixes) { UnderExactly(path, c.prefixes); }
    if (forall t | t in c.targets :: TargetAccepted(t, c.modules, c.allowed, c.prefixes)) && AllModulesAccepted(c.modules) {
      SelectedAreKnown(c, c.targets);
      var selected := Chosen(c.targets, "registryModules");
      ChosenListing(c.targets, "registryModules", plan.selectedModules);
      ChosenListing(c.targets, "evidencePaths", plan.evidencePaths);
      forall path ensures path in Chosen(c.targets, "evidencePaths") <==> SomeTargetLists(c.targets, "evidencePaths", path) {
        ChosenExactly(c.targets, "evidencePaths", path);
      }
      forall path ensures OwnedBy(path, c.modules, selected) <==> RegisteredFile(c, path) { OwnedExactly(c, path); }
      forall x ensures IsRelated(c.modules, selected, x) <==> RelatedSays(c.modules, selected, x) { RelatedExactly(c.modules, selected, x); }
    }
  }

  lemma ChosenListing(targets: seq<Json>, field: string, listing: seq<string>)
    ensures listing == SortText(Chosen(targets, field)) <==>
              Ascending(listing, Less) && forall text :: text in listing <==> SomeTargetLists(targets, field, text)
  {
    hide Chosen, SomeTargetLists, Less, Ascending, SortText;
    var chosen := Chosen(targets, field);
    forall text ensures text in chosen <==> SomeTargetLists(targets, field, text) { ChosenExactly(targets, field, text); }
    forall text ensures text in listing <==> text in Elements(listing) {}
    if Ascending(listing, Less) && forall text :: text in listing <==> SomeTargetLists(targets, field, text) {
      assert Elements(listing) == chosen;
      SortTextUnique(listing, chosen);
    }
  }

  lemma OwnedExactly(c: Context, path: string)
    requires AllModulesAccepted(c.modules) && Chosen(c.targets, "registryModules") <= c.modules.Keys
    ensures OwnedBy(path, c.modules, Chosen(c.targets, "registryModules")) <==> RegisteredFile(c, path)
  {
    hide ModuleAccepted, ModulePaths, FileOf, SomeTargetLists, Chosen;
    forall id ensures id in Chosen(c.targets, "registryModules") <==> SomeTargetLists(c.targets, "registryModules", id) {
      ChosenExactly(c.targets, "registryModules", id);
    }
    forall id | id in c.modules ensures path in ModulePaths(c.modules[id]) <==> FileOf(c.modules, id, path) { FilesOfModule(c.modules, id, path); }
    forall id | FileOf(c.modules, id, path) ensures id in c.modules { FileHasModule(c.modules, id, path); }
  }

  lemma FileHasModule(modules: Dict, id: string, path: string)
    requires FileOf(modules, id, path)
    ensures id in modules
  {
    hide RunsIn, Lists;
  }
}
