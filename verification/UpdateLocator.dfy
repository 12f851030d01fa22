/** scripts/compile_v26_update_locator.py: the planner in front of the update gate. It turns a request
    into the paths that may be edited and the paths that may only be read. */
module UpdateLocator {
  import opened Sorting
  import opened TextOrder
  import opened PyText
  import opened Json
  import opened Wrappers
  import Gate = UpdateGate

  const REQUEST_SCHEMA := "z.update_request.v1"

  /** `text_list`: a missing list is empty; anything but non-empty strings raises. */
  function TextSet(j: Json): Option<set<string>> {
    match j
    case Null => Some({})
    case Arr(items) =>
      if forall item | item in items :: item.Str? && item.s != "" then Some(set item | item in items :: item.s) else None
    case _ => None
  }

  predicate PrefixAdmits(path: string, prefix: string) {
    path == prefix || RStripSlash(prefix) + "/" <= path
  }

  predicate PolicyAllows(path: string, prefixes: set<string>) {
    exists prefix | prefix in prefixes :: PrefixAdmits(path, prefix)
  }

  function IndexOf(s: string, c: char): (i: nat)
    ensures i <= |s| && (i < |s| ==> s[i] == c) && c !in s[..i]
  {
    if s == "" || s[0] == c then 0 else
      var i := IndexOf(s[1..], c);
      assert s[..i + 1] == [s[0]] + s[1..][..i];
      i + 1
  }

  function DotsToSlashes(s: string): string {
    seq(|s|, i requires 0 <= i < |s| => if s[i] == '.' then '/' else s[i])
  }

  /** `runner_path`. */
  function RunnerPath(runner: string): Option<string> {
    var colon := IndexOf(runner, ':');
    if colon == |runner| then None else
      var name := Strip(runner[..colon]);
      if name == "" then None else Some(DotsToSlashes(name) + ".py")
  }

  // ------------------------------------------------------------------ what a request selects

  /** A target the planner accepts: known and allowed modules, evidence inside the policy. */
  predicate TargetAccepted(target: Json, modules: Dict, allowed: set<string>, prefixes: set<string>) {
    && target.Obj?
    && var ids := TextSet(Get(target.fields, "registryModules"));
       var evidence := TextSet(Get(target.fields, "evidencePaths"));
       && ids.Some? && ids.value != {} && ids.value <= modules.Keys && ids.value <= allowed
       && evidence.Some? && forall path | path in evidence.value :: PolicyAllows(path, prefixes)
  }

  /** The union of one field over the targets. */
  function Chosen(targets: seq<Json>, field: string): set<string> {
    if targets == [] then {} else
      var t := targets[|targets| - 1];
      Chosen(targets[..|targets| - 1], field) +
      (if t.Obj? && TextSet(Get(t.fields, field)).Some? then TextSet(Get(t.fields, field)).value else {})
  }

  /** A module record whose three lists are lists of text. */
  predicate ModuleAccepted(j: Json) {
    && j.Obj?
    && TextSet(Get(j.fields, "implementationPaths")).Some?
    && TextSet(Get(j.fields, "schemaIds")).Some?
    && TextSet(Get(j.fields, "fieldIds")).Some?
  }

  /** The files one registry module answers for: its implementation paths and its runner's file. */
  function ModulePaths(j: Json): set<string>
    requires ModuleAccepted(j)
  {
    var runner := RunnerPath(TextOrEmpty(Get(j.fields, "runner")));
    TextSet(Get(j.fields, "implementationPaths")).value + if runner.Some? then {runner.value} else {}
  }

  ghost predicate OwnedBy(path: string, modules: Dict, ids: set<string>) {
    exists id | id in ids && id in modules && ModuleAccepted(modules[id]) :: path in ModulePaths(modules[id])
  }

  datatype Context = Context(modules: Dict, profile: Dict, allowed: set<string>, prefixes: set<string>, targets: seq<Json>)

  /** Everything `compile_plan` looks up before it reads the targets; None where it raises. */
  function ContextOf(registry: Dict, policy: Dict, request: Dict, profileName: string): Option<Context> {
    var modules, profiles, targets := Get(registry, "modules"), Get(policy, "profiles"), Get(request, "targets");
    var name := if profileName != "" then Str(profileName)
                else if Truthy(Get(request, "policyProfile")) then Get(request, "policyProfile")
                else Get(policy, "defaultProfile");
    if Get(request, "schema") != Str(REQUEST_SCHEMA) then None
    else if !modules.Obj? || modules.fields == map[] then None
    else if !profiles.Obj? || !name.Str? || name.s !in profiles.fields || !profiles.fields[name.s].Obj? then None
    else
      var profile := profiles.fields[name.s].fields;
      var allowed := TextSet(Get(profile, "allowedRegistryModules"));
      var prefixes := TextSet(Get(profile, "allowedRuntimePathPrefixes"));
      if allowed.None? || prefixes.None? then None
      else if !targets.Arr? || targets.items == [] then None
      else Some(Context(modules.fields, profile, allowed.value, prefixes.value, targets.items))
  }

  datatype Plan = Plan(
    selectedModules: seq<string>, evidencePaths: seq<string>, editablePaths: seq<string>, readOnlyPaths: seq<string>,
    relatedModules: seq<Related>)

  // ------------------------------------------------------------------ modules that share something

  /** A module outside the selection, and what it shares with the selection. */
  datatype Related = Related(id: string, fieldIds: seq<string>, schemaIds: seq<string>, paths: seq<string>)

  function TextsOf(modules: Dict, id: string, field: string): set<string>
    requires id in modules && ModuleAccepted(modules[id]) && field in MODULE_FIELDS
  {
    TextSet(Get(modules[id].fields, field)).value
  }

  const MODULE_FIELDS := {"fieldIds", "schemaIds", "implementationPaths"}

  predicate AllModulesAccepted(modules: Dict) {
    forall id | id in modules :: ModuleAccepted(modules[id])
  }

  /** What the selected modules list under a field. */
  function SelectedTexts(modules: Dict, selected: set<string>, field: string): set<string>
    requires AllModulesAccepted(modules) && selected <= modules.Keys && field in MODULE_FIELDS
  {
    set id, x | id in selected && x in TextsOf(modules, id, field) :: x
  }

  function Shared(modules: Dict, selected: set<string>, id: string, field: string): set<string>
    requires AllModulesAccepted(modules) && selected <= modules.Keys && field in MODULE_FIELDS && id in modules
  {
    TextsOf(modules, id, field) * SelectedTexts(modules, selected, field)
  }

  function RelatedOf(modules: Dict, selected: set<string>, id: string): Related
    requires AllModulesAccepted(modules) && selected <= modules.Keys && id in modules
  {
    Related(id, SortText(Shared(modules, selected, id, "fieldIds")), SortText(Shared(modules, selected, id, "schemaIds")),
            SortText(Shared(modules, selected, id, "implementationPaths")))
  }

  predicate SharesSomething(modules: Dict, selected: set<string>, id: string)
    requires AllModulesAccepted(modules) && selected <= modules.Keys && id in modules
  {
    exists field | field in MODULE_FIELDS :: Shared(modules, selected, id, field) != {}
  }

  /** Two modules share something or not, whichever of them is selected. */
  lemma SharingIsMutual(modules: Dict, a: string, b: string)
    requires AllModulesAccepted(modules) && a in modules && b in modules
    ensures SharesSomething(modules, {a}, b) <==> SharesSomething(modules, {b}, a)
  {
    hide ModuleAccepted, TextSet;
    forall field, x: string, y: string | field in MODULE_FIELDS && x in modules && y in modules
      ensures Shared(modules, {x}, y, field) == TextsOf(modules, x, field) * TextsOf(modules, y, field) {}
  }

  /** `related_modules`: it reads the lists of every module of the registry, selected or not. */
  method RelatedModules(modules: Dict, selected: set<string>) returns (r: Option<seq<Related>>)
    requires selected <= modules.Keys
    ensures r.Some? <==> AllModulesAccepted(modules)
    ensures r.Some? ==> IsRelatedList(modules, selected, r.value)
  {
    hide ModuleAccepted, SortText, Shared, Less, Ascending;
    if !AllModulesAccepted(modules) { return None; }
    var ids := SortText(modules.Keys);
    var related: seq<Related> := [];
    for k := 0 to |ids|
      invariant forall x :: x in related <==> (x.id in ids[..k] && IsRelated(modules, selected, x))
      invariant forall i | 0 <= i < |related| :: related[i].id in ids[..k]
      invariant AscendingIds(related)
    {
      var id := ids[k];
      assert id in Elements(ids) && ids[..k + 1] == ids[..k] + [id];
      if id !in selected && SharesSomething(modules, selected, id) {
        LaterId(ids, k, related);
        related := related + [RelatedOf(modules, selected, id)];
      }
    }
    assert ids[..|ids|] == ids;
    assert forall id :: id in ids <==> id in Elements(ids);
    r := Some(related);
  }

  predicate IsRelated(modules: Dict, selected: set<string>, x: Related)
    requires AllModulesAccepted(modules) && selected <= modules.Keys
  {
    x.id in modules && x.id !in selected && SharesSomething(modules, selected, x.id) && x == RelatedOf(modules, selected, x.id)
  }

  ghost predicate AscendingIds(related: seq<Related>) {
    forall i, j | 0 <= i < j < |related| :: Less(related[i].id, related[j].id)
  }

  lemma LaterId(ids: seq<string>, k: nat, related: seq<Related>)
    requires k < |ids| && Ascending(ids, Less) && forall i | 0 <= i < |related| :: related[i].id in ids[..k]
    ensures forall i | 0 <= i < |related| :: Less(related[i].id, ids[k])
  {
    hide Less;
  }

  /** Exactly the unselected modules that share something with the selection, in order of their names. */
  ghost predicate IsRelatedList(modules: Dict, selected: set<string>, related: seq<Related>)
    requires AllModulesAccepted(modules) && selected <= modules.Keys
  {
    && AscendingIds(related)
    && forall x :: x in related <==> IsRelated(modules, selected, x)
  }

  // ------------------------------------------------------------------ the plan

  /** When a plan comes out, and which one. */
  ghost predicate PlanFor(c: Context, plan: Plan) {
    && (forall t | t in c.targets :: TargetAccepted(t, c.modules, c.allowed, c.prefixes))
    && var selected := Chosen(c.targets, "registryModules");
       var evidence := Chosen(c.targets, "evidencePaths");
       && selected <= c.modules.Keys && AllModulesAccepted(c.modules)
       && IsRelatedList(c.modules, selected, plan.relatedModules)
       && plan.selectedModules == SortText(selected)
       && plan.evidencePaths == SortText(evidence)
       && Ascending(plan.editablePaths, Less) && Ascending(plan.readOnlyPaths, Less)
       && (forall path :: path in plan.editablePaths <==>
             path in evidence || (OwnedBy(path, c.modules, selected) && PolicyAllows(path, c.prefixes)))
       && (forall path :: path in plan.readOnlyPaths <==>
             OwnedBy(path, c.modules, selected) && !PolicyAllows(path, c.prefixes))
  }

  /** The loop over the request's targets. */
  method ReadTargets(c: Context) returns (ok: bool, selected: set<string>, evidence: set<string>)
    ensures ok <==> forall t | t in c.targets :: TargetAccepted(t, c.modules, c.allowed, c.prefixes)
    ensures ok ==> selected == Chosen(c.targets, "registryModules") && evidence == Chosen(c.targets, "evidencePaths")
  {
    hide TargetAccepted, TextSet;
    selected, evidence := {}, {};
    for i := 0 to |c.targets|
      invariant forall t | t in c.targets[..i] :: TargetAccepted(t, c.modules, c.allowed, c.prefixes)
      invariant selected == Chosen(c.targets[..i], "registryModules") && evidence == Chosen(c.targets[..i], "evidencePaths")
    {
      var target := c.targets[i];
      if !TargetAccepted(target, c.modules, c.allowed, c.prefixes) { return false, {}, {}; }
      TargetLists(target, c);
      selected := selected + TextSet(Get(target.fields, "registryModules")).value;
      evidence := evidence + TextSet(Get(target.fields, "evidencePaths")).value;
      assert c.targets[..i + 1][..i] == c.targets[..i];
    }
    assert c.targets[..|c.targets|] == c.targets;
    ok := true;
  }

  /** The loop over the selected modules. */
  method ReadModules(c: Context, ids: seq<string>) returns (ok: bool, registered: set<string>)
    ensures ok <==> forall id | id in ids :: id in c.modules && ModuleAccepted(c.modules[id])
    ensures ok ==> forall path :: path in registered <==> OwnedBy(path, c.modules, Elements(ids))
  {
    hide ModuleAccepted, ModulePaths;
    registered := {};
    for i := 0 to |ids|
      invariant forall id | id in ids[..i] :: id in c.modules && ModuleAccepted(c.modules[id])
      invariant forall path :: path in registered <==> OwnedBy(path, c.modules, Elements(ids[..i]))
    {
      if ids[i] !in c.modules || !ModuleAccepted(c.modules[ids[i]]) { return false, {}; }
      OwnedByMore(c.modules, Elements(ids[..i]), ids[i]);
      assert Elements(ids[..i + 1]) == Elements(ids[..i]) + {ids[i]};
      registered := registered + ModulePaths(c.modules[ids[i]]);
    }
    assert ids[..|ids|] == ids;
    ok := true;
  }

  /** `compile_plan`. */
  method CompilePlan(registry: Dict, policy: Dict, request: Dict, profileName: string) returns (r: Option<Plan>)
    ensures r.Some? ==> ContextOf(registry, policy, request, profileName).Some? &&
                        PlanFor(ContextOf(registry, policy, request, profileName).value, r.value)
    ensures r.None? ==> ContextOf(registry, policy, request, profileName).None? ||
                        forall plan :: !PlanFor(ContextOf(registry, policy, request, profileName).value, plan)
  {
    hide ContextOf, TargetAccepted, ModuleAccepted, PolicyAllows, Less, Ascending, ModulePaths, OwnedBy, Chosen, SortText, IsRelatedList;
    var context := ContextOf(registry, policy, request, profileName);
    if context.None? { return None; }
    var c := context.value;
    var ok, selected, evidence := ReadTargets(c);
    if !ok { return None; }
    SelectedAreKnown(c, c.targets);
    var ids := SortText(selected);
    assert forall id :: id in ids <==> id in Elements(ids);
    var known, registered := ReadModules(c, ids);
    if !known { return None; }
    var related := RelatedModules(c.modules, selected);
    if related.None? { return None; }
    var editable := SortText((set path | path in registered && PolicyAllows(path, c.prefixes)) + evidence);
    var readOnly := SortText(set path | path in registered && !PolicyAllows(path, c.prefixes));
    assert forall path :: path in editable <==> path in Elements(editable);
    assert forall path :: path in readOnly <==> path in Elements(readOnly);
    r := Some(Plan(ids, SortText(evidence), editable, readOnly, related.value));
  }

  lemma {:induction false} SelectedAreKnown(c: Context, targets: seq<Json>)
    requires forall t | t in targets :: TargetAccepted(t, c.modules, c.allowed, c.prefixes)
    ensures Chosen(targets, "registryModules") <= c.modules.Keys
  {
    hide TextSet;
    if targets != [] {
      SelectedAreKnown(c, targets[..|targets| - 1]);
      assert TargetAccepted(targets[|targets| - 1], c.modules, c.allowed, c.prefixes);
    }
  }

  lemma TargetLists(t: Json, c: Context)
    requires TargetAccepted(t, c.modules, c.allowed, c.prefixes)
    ensures t.Obj? && TextSet(Get(t.fields, "registryModules")).Some? && TextSet(Get(t.fields, "evidencePaths")).Some?
  {
  }

  lemma OwnedByMore(modules: Dict, ids: set<string>, id: string)
    requires id in modules && ModuleAccepted(modules[id])
    ensures forall path :: OwnedBy(path, modules, ids + {id}) <==> OwnedBy(path, modules, ids) || path in ModulePaths(modules[id])
  {
  }

  // ------------------------------------------------------------------ the planner and the gate

  /** What the gate makes of one prefix: blank ones are dropped. */
  predicate GateAdmits(path: string, prefix: string) {
    Strip(prefix) != "" && Gate.PrefixAllowed(path, [prefix])
  }

  predicate Slash(s: string) { s != "" && s[|s| - 1] == '/' }

  lemma SlashEndings(s: string)
    ensures EndsWith(s, "/") <==> Slash(s)
    ensures EndsWith(s, "//") <==> Slash(s) && Slash(s[..|s| - 1])
  {
    if |s| >= 2 { assert s[|s| - 2..] == [s[|s| - 2], s[|s| - 1]]; }
  }

  lemma {:induction false} RStripSlashShape(s: string)
    ensures RStripSlash(s) <= s
    ensures !Slash(s) ==> RStripSlash(s) == s
    ensures Slash(s) && !Slash(s[..|s| - 1]) ==> s == RStripSlash(s) + "/"
    ensures Slash(s) && Slash(s[..|s| - 1]) ==> |RStripSlash(s)| + 2 <= |s| && s[|RStripSlash(s)| + 1] == '/'
  {
    if Slash(s) { RStripSlashShape(s[..|s| - 1]); }
  }

  /** A prefix means no more to the planner than to the gate exactly when it is neither blank nor
      ends in two slashes. */
  lemma PrefixRefinesExactly(prefix: string)
    ensures (forall path :: PrefixAdmits(path, prefix) ==> GateAdmits(path, prefix)) <==>
            Strip(prefix) != "" && !EndsWith(prefix, "//")
  {
    hide RStripSlash, EndsWith, Strip, GateAdmits;
    RStripSlashShape(prefix);
    SlashEndings(prefix);
    forall path ensures GateAdmits(path, prefix) <==> Strip(prefix) != "" && prefix <= path { GateIsStartsWith(path, prefix); }
    var r := RStripSlash(prefix);
    if EndsWith(prefix, "//") {
      var path := r + "/x";
      assert path[|r| + 1] == 'x' && PrefixAdmits(path, prefix);
    } else if Strip(prefix) == "" {
      assert PrefixAdmits(prefix, prefix);
    }
  }

  lemma GateIsStartsWith(path: string, prefix: string)
    ensures GateAdmits(path, prefix) <==> Strip(prefix) != "" && prefix <= path
  {
    assert prefix in [prefix];
  }

  lemma {:induction false} TextListHas(items: seq<Json>, x: Json)
    requires x in items && Strip(Text(x)) != ""
    ensures Text(x) in Gate.TextList(items)
  {
    var n := |items| - 1;
    if x in items[..n] { TextListHas(items[..n], x); } else { assert items == items[..n] + [items[n]]; }
  }

  /** Every path a plan marks editable passes the gate's file check under the same profile, whoever
      owns the file; no path is both editable and read-only; and together they are exactly the
      registered files of the selected modules and the evidence. */
  lemma PlanRefinesGate(c: Context, plan: Plan, node: Dict)
    requires PlanFor(c, plan) && TextSet(Get(c.profile, "allowedRuntimePathPrefixes")) == Some(c.prefixes)
    requires forall prefix | prefix in c.prefixes :: Strip(prefix) != "" && !EndsWith(prefix, "//")
    ensures forall path | path in plan.editablePaths :: Gate.FileChangeAllowed(path, node, Gate.ProfileOf(c.profile))
    ensures forall path :: !(path in plan.editablePaths && path in plan.readOnlyPaths)
    ensures forall path :: path in plan.editablePaths || path in plan.readOnlyPaths <==>
              path in Chosen(c.targets, "evidencePaths") || OwnedBy(path, c.modules, Chosen(c.targets, "registryModules"))
  {
    forall path | path in Chosen(c.targets, "evidencePaths") ensures PolicyAllows(path, c.prefixes) {
      EvidenceIsAllowed(c.targets, c, path);
    }
    hide Chosen, OwnedBy, Ascending, PolicyAllows, TargetAccepted, TextSet;
    forall path | path in plan.editablePaths
      ensures Gate.FileChangeAllowed(path, node, Gate.ProfileOf(c.profile))
    {
      GateAgrees(c, path, node);
    }
  }

  lemma GateAgrees(c: Context, path: string, node: Dict)
    requires TextSet(Get(c.profile, "allowedRuntimePathPrefixes")) == Some(c.prefixes)
    requires forall prefix | prefix in c.prefixes :: Strip(prefix) != "" && !EndsWith(prefix, "//")
    requires PolicyAllows(path, c.prefixes)
    ensures Gate.FileChangeAllowed(path, node, Gate.ProfileOf(c.profile))
  {
    hide TextSet, PrefixAdmits, Strip, EndsWith, Gate.ProfileOf;
    var prefix :| prefix in c.prefixes && PrefixAdmits(path, prefix);
    PrefixRefinesExactly(prefix);
    assert GateAdmits(path, prefix);
    GateKnowsPrefix(c, prefix);
  }

  lemma GateKnowsPrefix(c: Context, prefix: string)
    requires TextSet(Get(c.profile, "allowedRuntimePathPrefixes")) == Some(c.prefixes)
    requires prefix in c.prefixes && Strip(prefix) != ""
    ensures prefix in Gate.ProfileOf(c.profile).pathPrefixes
  {
    var items := ItemsOrEmpty(Get(c.profile, "allowedRuntimePathPrefixes"));
    var x :| x in items && x.Str? && x.s == prefix;
    TextListHas(items, x);
  }

  lemma {:induction false} EvidenceIsAllowed(targets: seq<Json>, c: Context, path: string)
    requires forall t | t in targets :: TargetAccepted(t, c.modules, c.allowed, c.prefixes)
    requires path in Chosen(targets, "evidencePaths")
    ensures PolicyAllows(path, c.prefixes)
  {
    var n := |targets| - 1;
    assert TargetAccepted(targets[n], c.modules, c.allowed, c.prefixes);
    if path in Chosen(targets[..n], "evidencePaths") { EvidenceIsAllowed(targets[..n], c, path); }
  }
}
