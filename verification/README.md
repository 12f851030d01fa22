# Release and lineage control plane

A Dafny model of the deterministic algorithms behind this repository's evidence tooling, and proofs
about them. `dafny verify dfyconfig.toml` checks the whole project.

What is modelled, hardest first:

- **Lineage compiler, package builder, archive verifier.** Two worklists compute the import and
  reference closures of a source tree; the result is hashed and written as JSON and as two text files;
  an independent builder reads them back and packs an archive; a third program checks the archive. The
  main theorem, `CompiledPackage.ThreeStageAcceptance`, says for which trees the three stages fit
  together: it is an if-and-only-if, unless two texts that the theorem names have the same digest.
  `LineageContract`, `LineageDocuments`, `TextContract`, `PackageContract` and `ArchiveContract` say
  exactly what each stage computes, demands and writes.
- **Update gate and locator.** The gate compares the lineage evidence of two commits and admits the
  difference under a policy profile. Proved: no difference slips through on the graphs the compiler
  emits, the empty profile means equality (and freezes the runtime byte for byte), enlarging a profile
  never withdraws admission, and exactly which profiles let a chain of updates be skipped to its ends.
  `GateContract` and `LocatorContract` say exactly what is admitted and planned.
- **Release seal.** A generator writes a manifest and a staging bundle; a much stricter verifier with
  one shared list of errors checks it. Proved: what acceptance means, what the release hash binds, and
  exactly which generated bundles are accepted. `ReleaseContract` lists what an accepted bundle is and
  `GeneratorContract` what the generator demands and writes.
- **Backup rotation and preflight.** A file-system state machine with crash safety at every step,
  retention as one cut, and the arithmetic that relates the two disk checks. `RotationContract` says
  which outcome a run has.
- **Two-process supervisor** against an environment that may end a child, send a signal or let time run
  out at every look; `SupervisorContract` says which observations lead to which launch and outcome.
- **Stand-alone algorithms**: bounded search over artifact edges, order-independent sealing of mirror
  receipts, held-out report and training reports, the recursive lock parser.

Code that changes state is modelled by methods and classes with loops and invariants, each proved
against a function or predicate; the theorems are about those. The modules named `Contract` tell these
functions apart from any others: their main theorems are if-and-only-ifs between a function of the
model and a condition on the fields, names and bytes that a user sees, with the constants spelled out.

## What is assumed

- SHA-256, JSON, UTF-8, globbing, module resolution and the extraction of imports and references are
  functions the model does not look into (`Platform.Platform`, `LineageCompiler.Tree`, the `glob`
  arguments). `Platform.Faithful` says what is used of the encodings: printed JSON parses back to the
  same value, text without carriage returns reads back as written, digests are sixty-four hexadecimal
  digits, `str` of text is that text. `CanonIsInjective` is asked for only where stated. No theorem
  assumes that hashes do not collide, for every hash has collisions; a result that needs there to be
  none names the two inputs that would have to collide (`Platform.Collides`).
- Of the interface governance compiler the composition theorem uses that its edges are of its own two
  kinds and end at files that exist, and that its nodes have names of their own
  (`scripts/competition_interface_gate.py` lines 112-127; `CompiledEvidence.Fits`, `CompiledGate.Foreign`);
  and of paths and module names that `strip` leaves them alone (`CompiledGate.Tidy`).
- File trees are finite maps from normalised relative paths to contents. `Coexist` (no file is also a
  directory) and `SafeNames` (paths are their own normal form) are facts about real directories and are
  stated where they are used.

## Where the code and its promises part

Each of these is a lemma; the code is modelled as it is.

- The row limit of the lineage diagnosis can hide an artifact. The edge table's key includes the
  relation type, so one pair of artifacts may have many rows (`src/repositories/artifact_repository.py`
  lines 42-49). The promise holds for every store, every root and every answer of the database exactly
  when at most one kind of relation is in use (`LineageStatus.PromiseHoldsExactly`); with two,
  `LineageStatus.RepeatedRelationsHideAChild` gives a parent with 130 children whose search returns
  without one of them. `LineageStatus.PageHidesExactly` says which single queries can hide a child.
- The update gate can miss a change on graphs the compiler does not emit, when a node named like a file
  is no file (`UpdateGateTheorems.UnshapedChangeIsSilent`). A baseline rules this out exactly when, for
  each of its file paths, some file node bears the id `file:` and that path
  (`UpdateGateTheorems.NothingIsSilentExactly`).
- Admitted updates do not compose under every profile: a step may hand a file to an allowed module, and
  the next may delete it as that module's. On compiled lineages this needs a profile that allows some
  module, leaves some path uncovered, and freezes none of membership, edges, module records, runtime
  hash and graph hash; all other profiles compose (`CompiledUpdates.ComposesExactly`;
  `CompiledUpdates.OwnershipHole` gives three compiled lineages).
- A live database kept under a backup's name can be deleted by its own backup run
  (`RotationTheorems.LiveDatabaseUnderBackupNameIsLost`). Which files survive every run can be told
  before it (`RotationTheorems.AlwaysSurvivesExactly`).
- The supervisor reaps its children and restores the signal handlers exactly when the operating system
  refuses no signal to them; a refusal other than "no such process" ends the clean-up where it stands
  (`Supervisor.TornDownExactly`).
- Preflight with its default retention of one deletes every old backup before anything has replaced
  them (`DeploymentPreflight.PreflightLeavesRollbackPoint`).
- A locator prefix means the same to the gate unless it is blank or ends in two slashes
  (`UpdateLocator.PrefixRefinesExactly`).
- The release generator accepts `null` where the verifier wants an empty list, and sorts lists that the
  verifier compares in order; `ReleaseAgreement.Conforming` lists every such difference, and
  `ReleaseAgreement.NullListIsRefused` makes a refused bundle out of any generated one.

## Model

| member | source | states |
|---|---|---|
| CompiledPackage.ThreeStageAcceptance | scripts/compile_competition_lineage.py:706-726 | the package built from a compiled lineage is accepted exactly when the lineage is verified, its one entrypoint is `src.api.main:app`, every runtime path is legal, and none collides with the manifest or the seven evidence files; the way back holds unless the hash material of the list printed and of the list read back collide (`ListsCollide`) |
| CompiledPackage.WentThrough | scripts/build_competition_runtime_package.py:233-352 | from a package that was built and accepted back to the lineage: it had no findings and was packable, unless the hash material of the list printed and of the list read back collide |
| CompiledPackage.PackableGoesThrough | scripts/verify_competition_runtime_package.py:55-198 | a verified, packable lineage passes builder and verifier without an error |
| CompiledPackage.CompiledIsRead | scripts/build_competition_runtime_package.py:241-264 | the builder reads from the output directory exactly what the compiler knew: documents, path list and digests |
| CompiledPackage.ReadIsCompiled | scripts/build_competition_runtime_package.py:241-264 | whatever the builder accepts to read are the compiler's documents, with no findings, and the list read from its text |
| CompiledPackage.BuiltListIsLegal | scripts/build_competition_runtime_package.py:277-293 | if the recomputed runtime hash agrees, the list read back is the list printed, and all its paths are legal |
| CompiledPackage.EntrypointIsRuntime | scripts/compile_competition_lineage.py:387-406 | a lineage without findings has at least one runtime file |
| LineageEvidence.Compile | scripts/compile_competition_lineage.py:319-703 | whatever the order of the queues, the result is the one lineage of the least import and reference closures; what these start from, and which roles, owners, edges and findings are due, is told by `LineageContract` in the scope's own fields |
| LineageEvidence.LineageIsUnique | scripts/compile_competition_lineage.py:319-703 | a tree and its settings have one lineage |
| LineageContract.StartsExactly | scripts/compile_competition_lineage.py:387-483 | the import worklist starts exactly from the existing files that end in `.py` and are a seed file, a match of a seed glob or an implementation path of a required module, and from the file of each well-formed entrypoint and runner; the frontend worklist from those with one of the four page suffixes and from the static roots |
| LineageContract.ClosuresExactly | scripts/compile_competition_lineage.py:485-518 | in every lineage the visited sets are the least ones that hold these files and what they import or reference |
| LineageContract.RuntimeExactly | scripts/compile_competition_lineage.py:376-520 | the runtime is what the scope names and exists, what the closures hold, and the existing `__init__.py` files above its Python files |
| LineageContract.OwnersExactly | scripts/compile_competition_lineage.py:442-468 | a required module owns a file exactly if it lists it as an implementation or runs it |
| LineageContract.RolesExactly | scripts/compile_competition_lineage.py:376-516 | which roles a file has, each by the reason that gives it |
| LineageContract.EdgesExactly | scripts/compile_competition_lineage.py:449-528 | the edges are exactly the owning and running ones, the imports of the import closure, the references of the reference closure, and the interface edges |
| LineageContract.FindingsExactly | scripts/compile_competition_lineage.py:360-553 | the findings are exactly the due ones, kind by kind, each with the condition on scope and tree that makes it due |
| LineageContract.CleanKeepsTheBoundary | scripts/compile_competition_lineage.py:530-536 | in a lineage without findings no runtime file has a forbidden name, starts with or is a forbidden prefix, or lies outside the allowed prefixes |
| LineageContract.ShadowsExactly | scripts/compile_competition_lineage.py:538-545 | the shadow entrypoints are the application objects that the scope does not declare |
| LineageDocuments.RecordsExactly | scripts/compile_competition_lineage.py:555-568 | one record per runtime file in the order of the paths, with the digest and the length of its bytes and exactly its roles and owners |
| LineageDocuments.ReportExactly | scripts/compile_competition_lineage.py:649-672 | the report is verified exactly when there is no finding, names commit, registry, runtime hash and graph hash, and is hashed over everything but its verdict and hash |
| LineageDocuments.GraphExactly | scripts/compile_competition_lineage.py:580-608 | the graph lists exactly the due nodes and edges, and its hash covers these two lists |
| LineageDocuments.EvidenceExactly | scripts/compile_competition_lineage.py:611-693 | the evidence manifest carries the verdict, the one entrypoint and the hashes of the other documents, and is signed; so is the snapshot |
| LineageEvidence.Discover | scripts/compile_competition_lineage.py:367-520 | seeds, both closures and package initialisers: the runtime paths, edges, roles and findings they come to |
| LineageEvidence.AssembleRecords | scripts/compile_competition_lineage.py:555-568 | one record per runtime path, in sorted order, with the file's hash and size and its sorted roles and owners |
| LineageEvidence.Audit | scripts/compile_competition_lineage.py:522-553 | governance problems, boundary crossings and shadow entrypoints are reported, each and nothing else |
| LineageCompiler.Run.DrainPython | scripts/compile_competition_lineage.py:485-503 | the import worklist ends on any graph with any duplicates in the queue; it visits exactly the least closed set over the seeds, and adds exactly its files, edges, roles and syntax findings |
| LineageCompiler.Run.DrainFrontend | scripts/compile_competition_lineage.py:505-518 | the same for frontend references |
| LineageCompiler.Run.CollectSeeds | scripts/compile_competition_lineage.py:387-483 | after the seed loops, paths, queues, edges, roles, owners and findings are those of the actions taken |
| LineageCompiler.Run.AddRuntimeFile | scripts/compile_competition_lineage.py:376-383 | a file is added with its role, or reported as missing and nothing else changes |
| LineageCompiler.Run.FollowImports | scripts/compile_competition_lineage.py:495-503 | every module that resolves to a local file is added, linked and queued |
| LineageCompiler.Run.AddPackageInitializers | scripts/compile_competition_lineage.py:192-204 | one pass adds exactly the existing initialisers of the packages above each Python file |
| LineageCompiler.ClimbPackages | scripts/compile_competition_lineage.py:198-203 | the climb to the root finds exactly the initialisers above a file |
| LineageCompiler.OnePassIsEnough | scripts/compile_competition_lineage.py:192-204 | adding package initialisers twice adds nothing new |
| LineageCompiler.Run.CheckBoundary | scripts/compile_competition_lineage.py:530-536 | the boundary loop reports exactly the forbidden names, private prefixes and paths outside the allowlist |
| Closure.ReachUnique | scripts/compile_competition_lineage.py:485-518 | the least closed set over the seeds is unique |
| Closure.DrainVisits | scripts/compile_competition_lineage.py:487-503 | visiting a queue entry and queueing its successors keeps the worklist's invariant |
| Closure.DrainEnds | scripts/compile_competition_lineage.py:486-486 | an empty queue means the least closed set has been visited |
| CompiledGate.CompiledGraphIsShaped | scripts/compile_competition_lineage.py:580-607 | a compiled graph has one file node per runtime file, carrying its hash, roles and owners, and the shape that the gate's theorems need |
| CompiledEvidence.OwnersShown | scripts/compile_competition_lineage.py:555-590 | the owners in a file's node are the modules that the seeds gave the file to |
| CompiledEvidence.OwnersAreLinked | scripts/compile_competition_lineage.py:433-468 | as the gate reads the edges, a module is linked to a file by an owning edge exactly when it owns the file |
| CompiledEvidence.OwnersAreRecorded | scripts/compile_competition_lineage.py:415-483 | the owners of an existing file are exactly the modules whose snapshot record names it as implementation or as the runner's file |
| CompiledEvidence.EndsExist | scripts/compile_competition_lineage.py:485-528 | every file at the end of a compiled edge exists |
| CompiledUpdates.CompiledUpdatesCompose | scripts/verify_competition_lineage_update.py:141-339 | two admitted updates of compiled lineages make an admitted update unless ownership is open, or a hash that the profile wants stable does not tell two named materials apart |
| CompiledUpdates.OwnershipHole | scripts/verify_competition_lineage_update.py:141-151 | for every profile under which ownership is open, three compiled, verified lineages: both steps are admitted, and their composition, which deletes a file no allowed module owned, is refused |
| CompiledUpdates.ComposesExactly | scripts/verify_competition_lineage_update.py:141-339 | exactly which profiles compose on compiled lineages: all but those that allow a module and leave a path uncovered while freezing none of membership, edges, module records, runtime hash and graph hash |
| CompiledGate.DenyAllFreezesTheRuntime | scripts/verify_competition_lineage_update.py:178-375 | an update that the empty profile admits has the same runtime files, each with the same bytes unless its two contents collide |
| LineageText.RuntimeListRoundTrip | scripts/build_competition_runtime_package.py:108-126 | printing and reading the path list are inverse exactly on non-empty sorted lists of legal paths |
| LineageText.ReadMeansOneLine | scripts/build_competition_runtime_package.py:108-126 | whatever text is read, the paths that come out contain no line break |
| LineageText.ReadRuntimePaths | scripts/build_competition_runtime_package.py:108-126 | the reading loop with its duplicate, emptiness and order checks computes the list's meaning |
| LineageText.ParseShaFile | scripts/build_competition_runtime_package.py:89-105 | the digest file is read line by line into a map, failing on a bad line or a repeated path |
| LineageText.ReadPrintedShas | scripts/compile_competition_lineage.py:720-726 | the printed digest file of distinct legal paths is read back as the map it lists |
| TextContract.LinesExactly | scripts/build_competition_runtime_package.py:89-126 | `splitlines` yields the one way to cut a text at line boundaries |
| TextContract.RuntimePathExactly | scripts/build_competition_runtime_package.py:77-86 | a line is a path exactly if, without the white space around it, it is not empty, not absolute, and has no component `..`, `.git` or `__pycache__` |
| TextContract.PartsExactly | scripts/build_competition_runtime_package.py:81-86 | components stand between slashes; the empty one and the single dot vanish |
| TextContract.ListReadExactly | scripts/build_competition_runtime_package.py:108-126 | a text is read as this list exactly when the lines that are not blank are these paths, in strictly ascending order, at least one |
| TextContract.ShaLineExactly | scripts/build_competition_runtime_package.py:89-105 | a line is read as digest and path exactly when it is sixty-four hexadecimal digits in either case, white space and that path |
| TextContract.DigestFileExactly | scripts/build_competition_runtime_package.py:89-105 | the digest file is read as this map exactly when each line that is not blank pairs a digest with a new path |
| PosixPath.LegalIsStripped | scripts/build_competition_runtime_package.py:77-86 | a path that the builder keeps unchanged has no white space at its ends |
| PosixPath.SafePathIsSafeMember | scripts/verify_competition_runtime_package.py:39-43 | every path the builder accepts, the archive verifier takes as it stands |
| PosixPath.DirIsSafe | scripts/verify_competition_runtime_package.py:39-43 | the directories above a safe member have safe names |
| RuntimePackage.BuildPackage | scripts/build_competition_runtime_package.py:233-352 | the builder's checks, copies and manifest, in order, compute one package or fail; when it succeeds and what it returns is told by `PackageContract` |
| RuntimePackage.VerifyArchive | scripts/verify_competition_runtime_package.py:55-198 | the loops and checks of the verifier compute one verdict, files and manifest; which archives it accepts is told by `ArchiveContract.VerifiedExactly` |
| PackageContract.LineageExactly | scripts/build_competition_runtime_package.py:241-264 | a lineage directory may be packed exactly if report and evidence manifest are verified and name the commit, all four documents are objects, and the two text files list the same paths |
| PackageContract.BuildsExactly | scripts/build_competition_runtime_package.py:233-352 | the builder succeeds exactly if moreover every listed file is in the tree with its listed digest, the seven evidence files are there, no file of the package lies below another, and the report has the digest of the list of files |
| PackageContract.BuiltExactly | scripts/build_competition_runtime_package.py:266-352 | what it returns: the manifest field by field with records and hashes, the staged files with bytes and modes, and the archive of files and directories in the order of their names |
| ArchiveContract.VerifiedExactly | scripts/verify_competition_runtime_package.py:55-198 | for every archive, accepted exactly when its members are files and directories under safe names, the manifest has schema, commit, entrypoint, three counts and both hashes right, every other file is recorded once with hash, size and mode, and the embedded report and evidence manifest are both verified, the report with the manifest's commit, runtime hash and graph hash; files and manifest returned are those |
| ArchiveContract.MembersReadExactly | scripts/verify_competition_runtime_package.py:62-78 | the members read are the regular ones under safe names, none twice |
| ArchiveContract.RecordsReadExactly | scripts/verify_competition_runtime_package.py:112-145 | the records pass exactly when each describes a file of its own, none the manifest |
| ArchiveContract.EmbeddedExactly | scripts/verify_competition_runtime_package.py:165-179 | the embedded lineage passes exactly when both documents say verified and the report agrees with the manifest |
| ArchiveContract.SafeNameExactly | scripts/verify_competition_runtime_package.py:39-43 | a member name is safe exactly if it is not empty, not absolute, and has no component `..` |
| PackageTheorems.ManifestBinding | scripts/verify_competition_runtime_package.py:97-152 | two accepted archives with one manifest hash have the same member names and, apart from the manifest, the same bytes and modes, unless the two manifests collide or the two contents of that member do |
| PackageTheorems.ArchiveRoundTrip | scripts/build_competition_runtime_package.py:207-230 | the verifier sees exactly the files that were staged |
| PackageTheorems.CopyRuntimeExactly | scripts/build_competition_runtime_package.py:136-169 | the runtime copy succeeds exactly when every file is there with its listed hash and none is in another's way, and then stages just these |
| PackageTheorems.CopyEvidenceExactly | scripts/build_competition_runtime_package.py:172-191 | the evidence copy succeeds exactly when all files are there and unobstructed; it writes over nothing else |
| PackageTheorems.WrittenRecordsAccepted | scripts/verify_competition_runtime_package.py:112-145 | records of the builder are accepted exactly when their paths are distinct, none is the manifest's, and all match their files |
| ThreeStages.BuildExactly | scripts/build_competition_runtime_package.py:266-331 | the builder succeeds on a lineage directory exactly when it is buildable, and what the package then holds |
| ThreeStages.BuiltThenVerified | scripts/verify_competition_runtime_package.py:55-198 | for any lineage directory, what the builder packs the verifier accepts exactly when no runtime path is reserved, the entrypoint is the expected one and the report names the commit as text |
| UpdateGate.Compare | scripts/verify_competition_lineage_update.py:178-375 | an update is verified exactly when it is admitted; the findings are exactly the due ones and the listings exactly what changed; admission is told by `GateContract.AdmittedExactly` on the fields of the documents |
| UpdateGate.AdmittedIffNothingFound | scripts/verify_competition_lineage_update.py:178-375 | the gate admits exactly the updates without a finding |
| UpdateGate.NodeMap | scripts/verify_competition_lineage_update.py:79-88 | the last node of an id wins, nodes without an id are dropped, first positions are kept |
| UpdateGate.EdgeSet | scripts/verify_competition_lineage_update.py:91-101 | the edges with two endpoints and a type |
| UpdateGate.FileNodes | scripts/verify_competition_lineage_update.py:104-112 | file nodes by path, the last one winning |
| GateContract.AdmittedExactly | scripts/verify_competition_lineage_update.py:178-375 | for every profile: the reports are verified where that is required, the four named hashes equal unless allowed, the runtime and graph hash where they must be stable, and every changed module, file, edge and node has a reason in the profile that lets it pass |
| GateContract.DenyAllExactly | scripts/verify_competition_lineage_update.py:178-375 | the empty profile admits exactly two verified sides with the four hashes equal, the same modules and edges, the same node ids, and every field of every node equal but the source commit |
| GateContract.DenyAllNeedsCleanLineages | scripts/verify_competition_lineage_update.py:195-198 | of two compiled lineages it admits only those that both have no finding |
| GateContract.NodesExactly | scripts/verify_competition_lineage_update.py:79-88 | the node of an id is the last one that bears it |
| GateContract.FilesExactly | scripts/verify_competition_lineage_update.py:104-112 | the file node of a path is the last in first-seen order whose type is file and whose path it is |
| GateContract.ProfileExactly | scripts/verify_competition_lineage_update.py:195-316 | which flags, prefixes, modules and hashes a profile document grants, with the default of each |
| GateContract.ChangedExactly | scripts/verify_competition_lineage_update.py:115-116 | a node changed exactly if it is on one side only or differs in a field other than the source commit |
| GateContract.SpecialsExactly | scripts/verify_competition_lineage_update.py:241-319 | the four hashes by name, each equal unless the profile allows it to change |
| UpdateGateTheorems.NoSilentNodeChange | scripts/verify_competition_lineage_update.py:316-339 | every node on which the two sides differ was allowed to change, file node or not |
| UpdateGateTheorems.NoSilentChange | scripts/verify_competition_lineage_update.py:245-339 | all differing nodes, edges, modules and special hashes of an admitted update were allowed |
| UpdateGateTheorems.DenyAllMeansEqual | scripts/verify_competition_lineage_update.py:178-375 | the empty profile admits exactly verified sides with equal nodes, edges, modules and special hashes; `GateContract.DenyAllExactly` says the same field by field |
| UpdateGateTheorems.EnlargingKeepsAdmission | scripts/verify_competition_lineage_update.py:130-175 | a larger profile never withdraws admission |
| UpdateGateTheorems.UnshapedChangeIsSilent | scripts/verify_competition_lineage_update.py:316-322 | a baseline outside the compiler's shape, and an update of it on which a new node passes the empty profile |
| UpdateGateTheorems.NothingIsSilentExactly | scripts/verify_competition_lineage_update.py:316-339 | the empty profile lets no node change unseen over a baseline exactly when the baseline is not verified or every id that the node loop skips is the id of a file node |
| UpdateGateTheorems.UpdatesCompose | scripts/verify_competition_lineage_update.py:141-339 | two admitted updates make an admitted update as soon as the verdicts on the files that their composition asks about carry over; other nodes, modules and hashes compose by themselves |
| UpdateLocator.CompilePlan | scripts/compile_v26_update_locator.py:116-241 | a plan comes out exactly for known profiles, well-formed modules and allowed evidence paths, with the editable and read-only paths and the related modules it should have |
| UpdateLocator.RelatedModules | scripts/compile_v26_update_locator.py:80-113 | succeeds exactly when the lists of every module are well-formed; then exactly the unselected modules that share something with the selection, in order, each with what it shares |
| UpdateLocator.SharingIsMutual | scripts/compile_v26_update_locator.py:95-112 | of two modules, each is related to the other's selection or neither is |
| UpdateLocator.PlanRefinesGate | scripts/compile_v26_update_locator.py:145-205 | every editable path passes the gate under the same profile; editable and read-only are disjoint and together the registered and evidence paths |
| UpdateLocator.PrefixRefinesExactly | scripts/compile_v26_update_locator.py:71-72 | a prefix allows no more to the planner than to the gate exactly when it is neither blank nor ends in two slashes |
| LocatorContract.ContextExactly | scripts/compile_v26_update_locator.py:116-143 | which requests are acceptable: their schema, modules, targets and profile, and where the profile's name is taken from |
| LocatorContract.TargetExactly | scripts/compile_v26_update_locator.py:148-166 | which targets are accepted |
| LocatorContract.PlanExactly | scripts/compile_v26_update_locator.py:145-241 | the plan is the one whose editable paths are the allowed registered and evidence paths, read-only the others, and whose related modules share what they list |
| ReleaseVerifier.Verifier.Verify | scripts/release_verifier.py:481-688 | the verdict is "verified" exactly when the bundle meets every check, which `ReleaseContract.AcceptsExactly` tells on the bundle's files and fields; a forbidden path is reported exactly if it is listed and present on disk |
| ReleaseVerifier.Verifier.VerifyEntries | scripts/release_verifier.py:295-342 | no error is added exactly when every entry is in order and names a path no entry of any table named before |
| ReleaseVerifier.Verifier.VerifyEvidenceSemantics | scripts/release_verifier.py:388-478 | no error is added, and the result is true, exactly when the evidence documents bind to the manifest |
| ReleaseVerifier.Verifier.StringList | scripts/release_verifier.py:253-267 | returns the usable strings; silent exactly on non-empty lists of distinct non-empty strings |
| ReleaseVerifier.Verifier.ExactKeys | scripts/release_verifier.py:240-250 | silent exactly on objects with these keys |
| ReleaseVerifier.CollectPolicyPaths | scripts/release_verifier.py:270-281 | the two loops compute the files selected and not excluded, without the manifest |
| ReleaseVerifier.ExpectedTestRunHash | scripts/release_verifier.py:345-365 | the digest over the entries in path order, or nothing when an entry is malformed |
| ReleaseVerifier.ExpectedAttestedDigest | scripts/release_verifier.py:368-385 | the text of the source digests in path order, or nothing |
| ReleaseTheorems.ExactContents | scripts/release_verifier.py:594-660 | in an accepted bundle the tables are free of duplicates and pairwise disjoint, equal to what lies on disk under the policy and under the attestation directory, match every file, and no file is or lies below a forbidden path |
| ReleaseTheorems.EntriesCleanExactly | scripts/release_verifier.py:304-341 | a table passes the loop exactly when all entries are in order, no path comes twice, and none was taken before |
| ReleaseTheorems.ReleaseHashBinds | scripts/release_verifier.py:541-547 | two bundles with one release hash list the same files with the same bytes in every table, unless the two manifests collide or the two contents of that file do |
| ReleaseTheorems.PresentExactly | scripts/release_verifier.py:619-627 | a forbidden path counts as present exactly if it is a safe name and a file has that name or lies below it |
| ReleaseContract.AcceptedHasNoLegacy | scripts/release_verifier.py:511-534 | none of the eleven retired files or directories, by name, is in an accepted bundle |
| ReleaseContract.AcceptsExactly | scripts/release_verifier.py:481-688 | exactly the accepted bundles: both documents with their fields and lists, rules, seal, lock and environment word for word, the three tables with every entry's name, hash and size, the digest of the test run, the nine evidence files and three evidence documents, no forbidden path, and the tables equal to what the policy selects on disk |
| ReleaseContract.TablesExactly | scripts/release_verifier.py:295-342 | the tables pass exactly when every entry names a file of the bundle with its hash and size and nothing else, and no path comes twice in all three |
| ReleaseContract.EvidenceExactly | scripts/release_verifier.py:388-478 | the evidence passes exactly when the nine files are listed and not empty, and the documents bear out commit, interpreter, environment and attested files |
| ReleaseContract.SetsExactly | scripts/release_verifier.py:629-647 | runtime and attested table list exactly what the policy selects and does not exclude, the third exactly what lies below the attestation directory |
| ReleaseGenerator.Generate | scripts/generate_release_manifest.py:379-476 | the generator succeeds exactly when a plan can be made, the manifest can be written and the staging paths fit; and what it then leaves |
| ReleaseGenerator.MakePlan | scripts/generate_release_manifest.py:391-428 | every guard of `main` before the manifest, and the selected files |
| ReleaseGenerator.Expand | scripts/generate_release_manifest.py:73-80 | the selected files, less the excluded ones, sorted |
| ReleaseGenerator.ValidateEvidenceSemantics | scripts/generate_release_manifest.py:229-307 | the list of all mismatches, field by field in order, or nothing on an unreadable document |
| ReleaseGenerator.NoErrorsExactly | scripts/generate_release_manifest.py:229-307 | that list is empty exactly when the evidence documents bind to commit, version, freeze hash and source digests |
| ReleaseGenerator.FieldErrorsExactly | scripts/generate_release_manifest.py:240-289 | a field is reported exactly when it is not as expected |
| ReleaseGenerator.CopyStaging | scripts/generate_release_manifest.py:351-376 | succeeds exactly when no evidence path is taken and no path obstructs another, and what the staging directory then holds |
| GeneratorContract.PlannedExactly | scripts/generate_release_manifest.py:391-428 | the generator goes on exactly with a forty-digit commit, a policy that declares a patch release of 3.11 and iterable lists, a dependency lock, an isolated interpreter of that version, non-empty selections, and evidence about all of these; and with which files |
| GeneratorContract.ListingExactly | scripts/generate_release_manifest.py:411-414 | what a policy list yields when it is iterated over: nothing, the values of a list, the keys of an object, the characters of a text; other values raise |
| GeneratorContract.ManifestExactly | scripts/generate_release_manifest.py:430-463 | the manifest it writes, field by field: heading, tables with every hash and size, lists in order, lock, environment, test run digest and contract; both hashes are over all of it |
| GeneratorContract.RoomExactly | scripts/generate_release_manifest.py:351-376 | manifest and staging can be written exactly where no source takes an evidence file's place and no file lies below another |
| GeneratorContract.BundleExactly | scripts/generate_release_manifest.py:351-376 | the staging directory holds exactly sources, evidence and manifest, with their bytes |
| ReleaseAgreement.GeneratedIsAcceptedExactly | scripts/generate_release_manifest.py:351-474 | a generated bundle is accepted by the verifier exactly when it is conforming |
| ReleaseAgreement.AcceptableExactly | scripts/release_verifier.py:481-660 | the verifier's checks on a generated bundle come to the conditions of conformity, one by one |
| ReleaseAgreement.GeneratedIsSealed | scripts/generate_release_manifest.py:461-463 | a generated manifest always carries the commit, the contract and both hashes that the verifier recomputes |
| ReleaseAgreement.AttestedDigestAgrees | scripts/generate_release_manifest.py:219-226 | generator and verifier compute the same text of source digests |
| ReleaseAgreement.SetsAgree | scripts/release_verifier.py:629-647 | the three comparisons with the disk succeed exactly when the policy selects no evidence file, the manifest is not attested, and no source lies in the attestation directory |
| ReleaseAgreement.ListsAgree | scripts/release_verifier.py:511-534 | the list comparisons succeed exactly when the policy keeps entrypoints and forbidden paths in order |
| ReleaseAgreement.EvidenceAgrees | scripts/release_verifier.py:388-478 | the verifier repeats the generator's evidence checks, except that missing, mismatched and extra packages must be empty lists |
| ReleaseAgreement.NullListIsRefused | scripts/generate_release_manifest.py:269-271 | beside every generated bundle there is one that differs in a `null` list of missing packages, which the generator produces and the verifier refuses |
| BackupRotation.BackupRun.CreateRotatingBackup | scripts/sqlite_backup_rotate.py:147-247 | outcome, final disk and every intermediate disk: at each point where the run may stop, a rollback point that existed still exists and the live database is untouched unless it bears a backup's name; which outcome it is, `RotationContract.OutcomeExactly` tells |
| BackupRotation.BackupRun.CleanupIncomplete | scripts/sqlite_backup_rotate.py:87-104 | exactly the sidecars and the incomplete backups go, each recorded |
| BackupRotation.BackupRun.PruneComplete | scripts/sqlite_backup_rotate.py:107-117 | exactly the backups beyond the first `keep` go, each recorded |
| BackupRotation.BackupRun.CopyAndPublish | scripts/sqlite_backup_rotate.py:198-236 | checks and publishes the copy, or fails and leaves no partial file; which copies are published, `RotationContract.CopyExactly` tells |
| BackupRotation.PrunedIsCut | scripts/sqlite_backup_rotate.py:107-117 | deleting the tail of the sorted listing is the set-level cut to the newest |
| BackupRotation.RemovedBytesExact | scripts/sqlite_backup_rotate.py:140-145 | bytes used before are still used or recorded as removed |
| RotationContract.OutcomeExactly | scripts/sqlite_backup_rotate.py:147-236 | a run completes exactly when its arguments are in order, the disk has room, the name is free, and the copy is made, at least 4096 bytes and nine tenths of the source long, complete, passes `quick_check` and can be renamed; every error has exactly its own cause |
| RotationContract.CopyExactly | scripts/sqlite_backup_rotate.py:198-225 | which copies are published, and which of the five failures each other copy has |
| RotationContract.ArgumentsExactly | scripts/sqlite_backup_rotate.py:159-173 | which arguments are refused, and why |
| RotationContract.CleanedExactly | scripts/sqlite_backup_rotate.py:87-104 | the clean-up spares exactly the files that are neither a leftover by name nor an incomplete backup |
| RotationContract.PrunedExactly | scripts/sqlite_backup_rotate.py:107-117 | pruning spares a backup exactly when fewer than `keep` are newer, by time and then by name |
| RotationTheorems.TwoPruningsAreOne | scripts/sqlite_backup_rotate.py:175-247 | the retained backups are exactly the `keep` newest of the old complete ones and the new one |
| RotationTheorems.NewestIsRetained | scripts/sqlite_backup_rotate.py:175-247 | a backup newer than all old ones is retained |
| RotationTheorems.AlwaysSurvivesExactly | scripts/sqlite_backup_rotate.py:147-247 | a file survives in every environment and at every outcome exactly when the arguments are refused, or it is no sidecar and not the partial file and, if a candidate, complete with fewer than `keep` complete candidates newer than it, counting one more when a new backup can be published under a name that counts |
| RotationTheorems.CompletedRunSpares | scripts/sqlite_backup_rotate.py:175-247 | which files a completed run spares, given the backup it made |
| RotationTheorems.LiveDatabaseUnderBackupNameIsLost | scripts/sqlite_backup_rotate.py:147-247 | a run that deletes the live database it was asked to back up |
| RotationTheorems.BytesAreConserved | scripts/sqlite_backup_rotate.py:236-247 | old bytes plus the new backup are the bytes left plus `removedBytes` |
| DeploymentPreflight.ReadyImpliesRotationFits | config/deployment/deployment_preflight.py:142-148 | preflight's free-space check implies the rotation's exactly when its reserve covers the rotation's |
| DeploymentPreflight.DefaultsCover | config/deployment/deployment_preflight.py:142-148 | with both defaults this holds up to 5368709129 bytes and not above |
| DeploymentPreflight.ReadyExactly | config/deployment/deployment_preflight.py:142-148 | with the default reserve, ready exactly when 536870912 bytes remain beside a copy of the database and it passes `quick_check` or is missing |
| DeploymentPreflight.RotationFitsExactly | scripts/sqlite_backup_rotate.py:186-189 | with the default reserves, the rotation has room exactly when 268435456 bytes, or a tenth of the database if that is more, remain beside the copy |
| DeploymentPreflight.Preflight.RotateBackups | config/deployment/deployment_preflight.py:78-94 | exactly the candidates beyond the cut go, and `freed` is their size |
| DeploymentPreflight.PreflightLeavesRollbackPoint | config/deployment/deployment_preflight.py:78-94 | which retention counts leave a complete backup after preflight |
| DeploymentPreflight.PreflightThenRotation | config/deployment/deployment_preflight.py:78-94 | preflight and rotation together keep what the rotation alone keeps |
| Supervisor.Supervise | config/deployment/v24_java_lifecycle.py:99-153 | over every sequence of observations: the API starts at most once, only after a ready answer, a live Java child and the announcement, never in preflight or without a command; what each result code means; what follows the block, down to the signal that is refused |
| Supervisor.TornDownExactly | config/deployment/v24_java_lifecycle.py:81-153 | all started children are ended, killed and reaped and the handlers restored exactly when no signal to them is refused |
| Supervisor.Block | config/deployment/v24_java_lifecycle.py:118-149 | the protected block: the launch is justified, the outcome explained by its last act, and the list of children is exact |
| Supervisor.EveryChildIsReaped | config/deployment/v24_java_lifecycle.py:81-96 | where no signal is refused, each started child is asked to end, then killed, then reaped, in this order, before the handlers go back |
| Supervisor.Stop | config/deployment/v24_java_lifecycle.py:81-96 | all children are asked to end, then the wait while some are left, then each is killed and reaped, up to the first signal that is refused; succeeds exactly when none is |
| Supervisor.AfterReady | config/deployment/v24_java_lifecycle.py:134-149 | from the announcement on: no launch in preflight, after a signal or without a command, and the outcome explained by the last act |
| Supervisor.AwaitReady | config/deployment/v24_java_lifecycle.py:122-133 | the polling loop computes the wait `Await`, look by look, on every tape |
| Supervisor.AwaitMeans | config/deployment/v24_java_lifecycle.py:122-133 | a wait is confirmed only by a ready answer followed by a live child; otherwise its last act is the reason it ended: a dead child, a broken answer, a signal or the deadline |
| Supervisor.Monitor | config/deployment/v24_java_lifecycle.py:145-149 | the watching loop computes the watch `Watch`, look by look, on every tape |
| Supervisor.WatchEndsExactly | config/deployment/v24_java_lifecycle.py:145-149 | the watch goes on exactly while both children are up and no signal came; zero exactly when it ends by a signal, one only when a child was seen dead |
| SupervisorContract.WaitExactly | config/deployment/v24_java_lifecycle.py:122-133 | at which look the wait ends, and how: ready and alive, too late or interrupted, dead, or a broken answer |
| SupervisorContract.LaunchExactly | config/deployment/v24_java_lifecycle.py:118-144 | the API is started exactly when Java starts, answers ready at some look and is alive at the next, the announcement works, no signal came, it is no preflight, there is a command, and it can start |
| SupervisorContract.FailuresExactly | config/deployment/v24_java_lifecycle.py:118-144 | each of the seven failures occurs exactly for its own cause |
| SupervisorContract.CodesExactly | config/deployment/v24_java_lifecycle.py:118-149 | zero exactly after a preflight announcement or a watch ended by a signal; one exactly after a signal before the launch or a child seen dead |
| LineageStatus.Inspect | config/deployment/agent2_lineage_status.py:17-30 | the bounded search gives up or returns exactly what lies within eight rounds of the answered queries |
| LineageStatus.ReachedByWalk | config/deployment/agent2_lineage_status.py:14-30 | what lies within eight rounds is what a walk of at most eight edges reaches from one of the two references that is not empty |
| LineageStatus.PromiseHoldsExactly | config/deployment/agent2_lineage_status.py:17-30 | for every store with certain kinds of relation, every pair of roots and every answer of the database, the search gives up exactly above 256 artifacts within eight edges and otherwise has found all of them: exactly when there is at most one kind |
| LineageStatus.RowLimitHidesNothing | config/deployment/agent2_lineage_status.py:17-30 | the search is exact where no query for a parent within seven edges can hide a child |
| LineageStatus.OneParentExactly | config/deployment/agent2_lineage_status.py:17-30 | on a store with one parent, the search from it is exact under every answer exactly when its query can hide no child |
| LineageStatus.PageHidesExactly | config/deployment/agent2_lineage_status.py:20-22 | a limited query can hide a child unnoticed exactly when the rows to some child other than the parent can all be left out, 257 or more remain, and these name, with the parent, fewer artifacts than they are |
| LineageStatus.OneRelationHidesNothing | config/deployment/agent2_lineage_status.py:20-22 | with one relation per pair no page hides a child |
| LineageStatus.RepeatedRelationsHideAChild | config/deployment/agent2_lineage_status.py:17-30 | for any two kinds of relation, a store and an answer for which the search returns without an artifact one edge away |
| MirrorEvidence.Build | scripts/build_v24_26_external_mirror_evidence.py:90-153 | succeeds exactly on consistent receipts, then returns what they seal to, and otherwise blames a receipt that is at fault |
| MirrorEvidence.OrderDoesNotMatter | scripts/build_v24_26_external_mirror_evidence.py:90-153 | permuted receipts fail alike, and seal to the same evidence |
| MirrorEvidence.SealIsUnique | scripts/build_v24_26_external_mirror_evidence.py:120-153 | a set of receipts seals to one evidence |
| MirrorEvidence.EachReceiptOnce | scripts/build_v24_26_external_mirror_evidence.py:95-119 | each receipt is exactly one sample, in its own window, under that window's identity |
| MirrorEvidence.NothingIsMadeUp | scripts/build_v24_26_external_mirror_evidence.py:120-140 | every sample stems from a receipt of its window |
| DependencyLock.IterLockLines | scripts/check_dependency_lock.py:22-36 | the recursive walk ends on cyclic includes and lists each newly entered file's own lines once, in order |
| DependencyLock.LockLines | scripts/check_dependency_lock.py:22-36 | a walk from nothing visits exactly the files reachable by includes |
| DependencyLock.ParseLock | scripts/check_dependency_lock.py:39-53 | succeeds exactly when the reachable lines are exact pins that agree, and returns them under normalised names |
| DependencyLock.PinsAreDetermined | scripts/check_dependency_lock.py:39-53 | a listing declares at most one set of pins |
| DependencyLock.CanonicalNameIsNormal | scripts/check_dependency_lock.py:18-19 | the canonical name is in the normal form of PEP 503, section "Normalized Names" |
| DependencyLock.NormalIsCanonical | scripts/check_dependency_lock.py:18-19 | normal names are their own canonical names, so normalising is idempotent |
| DependencyLock.Verify | scripts/check_dependency_lock.py:78-110 | verified exactly when nothing is missing, mismatched or, if strict, extra |
| DependencyLock.StrictlyVerifiedIsLocked | scripts/check_dependency_lock.py:65-110 | a strictly verified environment is a function of the lock |
| DependencyLock.EnvironmentIsDetermined | scripts/check_dependency_lock.py:65-110 | two strictly verified environments of one lock share their lines and their freeze hash |
| LockContract.ClassifyExactly | scripts/check_dependency_lock.py:28-36 | which lines of a lock file say nothing, include another file, or are entries |
| LockContract.ParsePinExactly | scripts/check_dependency_lock.py:42-50 | an entry is a pin exactly if it is a name, two equals signs, and a version without white space or semicolon |
| LockContract.CanonicalNameExactly | scripts/check_dependency_lock.py:18-19 | a run of separators becomes one hyphen, every other character its small letter |
| LockContract.EnvironmentExactly | scripts/check_dependency_lock.py:65-70 | one line per installed package that does not come with Python, in the order of the names |
| LockContract.VerifiedExactly | scripts/check_dependency_lock.py:78-110 | verified exactly if every pin is installed at its version and, if strict, nothing else but what comes with Python |
| Initialization.CompileBundle | scripts/compile_v2610_initialization.py:85-152 | succeeds exactly on accepted scenarios and returns their bundle |
| Initialization.HoldoutDoesNotInterfere | scripts/compile_v2610_initialization.py:85-152 | scenarios that differ only in the third report give the same methods, initialisation hash, fields and training reports, and the same units and supplementary entries apart from the holdout records |
| Initialization.HoldoutIsTheThirdReport | scripts/compile_v2610_initialization.py:130-133 | each unit's holdout record is that unit's row of the third report |
| Initialization.ResolveParameters | scripts/compile_v2610_initialization.py:18-30 | the overrides applied in order with their checks, or an error |
| Initialization.ProvenanceIsRight | scripts/compile_v2610_initialization.py:18-30 | every parameter has the value of the strongest level that sets it, and the provenance names that level |
| Initialization.CompileUnits | scripts/compile_v2610_initialization.py:106-143 | units and methods of all scopes in order, or an error where the source raises |
| Initialization.CompileSheet | scripts/compile_v2610_initialization.py:48-82 | the entries of a supplementary sheet, by key, when all three reports agree on its scope and its evidence holds |
| Initialization.PresetsAskForImprovement | scripts/compile_v2610_initialization.py:33-45 | in every bundle exactly agent2's methods carry a preset; its target is never below the baseline, equal to it only for a zero share or baseline, reaching it is by the baselines' own formula a relative change of the configured share, and its window and bounds are in range |
| InitializationContract.AcceptedExactly | scripts/compile_v2610_initialization.py:85-118 | which scenarios are accepted: three reports with different ids and rising periods, the same units in all, rows, units and sheets in order |
| InitializationContract.BundleExactly | scripts/compile_v2610_initialization.py:106-152 | the bundle has one unit per scope in order, told by its rows in the three reports, and one method per unit and agent |
| InitializationContract.UnitExactly | scripts/compile_v2610_initialization.py:106-133 | what a unit says is what its first two rows and the parameters make of it: baselines with their deltas and thresholds, the three ratios of the second row, and the mismatch flag |
| InitializationContract.PresetExactly | scripts/compile_v2610_initialization.py:33-45 | a plan's baseline is the second report's `roi`, its target that plus its absolute value times the configured share, its window and bounds the resolved parameters |
| InitializationContract.ParametersExactly | scripts/compile_v2610_initialization.py:18-30 | the value and the provenance of every parameter, level by level |
| InitializationContract.SheetExactly | scripts/compile_v2610_initialization.py:48-82 | which supplementary sheets are accepted |
| InitializationContract.SheetsExactly | scripts/compile_v2610_initialization.py:48-82 | each entry of a compiled sheet is told by its rows in the three reports |

## Left out

- Symbolic links, file ownership, directory modes and time stamps inside archives; gzip and tar are taken to return the members put in.
- Empty directories: a directory exists here when a file lies below it.
- The inner workings of the interface governance compiler, of AST and reference extraction, of globbing and of regular expressions: functions the model does not look into.
- Wildcard characters inside a backup prefix: the prefix is matched as text.
- Exceptions raised while a registry, scope, policy or graph file has a list where text is expected: such values read as empty text, except in the archive verifier and the release tools, where `str` is a function of any value.
- JSON numbers with a fraction in the lineage and release documents; Python's `True == 1` inside nested values that are compared whole, apart from the policy rules and the verification contract.
- The exact wording of findings and errors; the compiler's findings are kinds with their subjects, and the generator's evidence errors are pairs of document and field.
- The warnings and the console output of all programs, the build result file and the checksum file beside the archive.
- The required gates, the target records and the change notes of a locator plan.
- The runtime contract check, the child environment and the port probe of the supervisor, which are choices of the environment here.
- SQLite itself: whether a file is complete and passes `quick_check` is carried with the file; copying is a step that yields any file or fails.
- Fields that a document only passes on, such as captured reports in the lineage diagnosis after its search.
- Initialization.CompileSheet: does not keep the order in which supplementary entries are listed (they are a map by key here) and does not raise where Python cannot compare or hash the cells of a key; a number and a flag that Python calls equal are different keys here.
- A registry module whose name is the empty text, which the compiler's model cannot tell from no module.
- Floating-point rounding, and a negative `epsilon` in the initialisation profile, for which the source divides by zero.
- The programs that repeat these patterns on other documents: runtime contract overlay, recovery scope planner, execution gate, literal checkers and end-to-end drivers.
