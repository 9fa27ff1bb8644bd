# The package and installation engine, verified

The scripts under `scripts/` build a package manifest, check a package against it, and install, verify and remove
the package, either as a tree of its own (`install.mjs`, `uninstall.mjs`) or file by file in a workspace
(`install-workspace.mjs`, `verify-workspace-install.mjs`). Every decision they take rests on four things: canonical
JSON text and its digest, string tests on paths, the compilation of install targets to files, and sequences of file
operations that may be interrupted anywhere. This project models all four and proves what the scripts rely on.

## How the model is built

* **Host** (`Host.dfy`). The operating system and the runtime are parameters: the order in which directories are
  listed, `localeCompare`, the meaning of numerals, UTF-8, SHA-256, and how many links one lookup may follow. `Sound`
  says what is assumed of them, and `SoundHosts` that the assumptions can be met together. Nothing is assumed about
  collisions of the hash: where one matters, the result names the colliding pair.
* **Values** (`Json`, `JsonParser`, `JsonRoundTrip`, `ParsedValues`, `JsonGrammar`, `JsonTrees`, `JsonLayout`,
  `CodeUnits`). JavaScript values with their property order, `JSON.stringify` and a parser for the grammar of RFC 8259.
  Both are tied to the grammar itself: trees that keep every character of a text, and what each tree means. `Meaning`
  is a value without key order; `Printed` says what printing keeps of it.
* **Paths** (`Paths`, `PathLemmas`, `PathSteps`, `Containment`). `resolve`, `relative`, `join`, `normalize` and
  `dirname` as functions on strings, so that tests such as `startsWith('../')` stay the string tests they are.
* **Packages** (`Manifests`, `ReadManifests`, `BuildThenRead`, `Mappings`, `MappingLaw`). What acceptance, compilation
  and the records mean is also told without the functions that compute it, from the files on the disk and the names in
  them: `PackageContents`, `BoundFields`, `SourceTargets`, `InstallRecords`, `WorkspaceContents`, `WrittenTexts`.
* **Disks** (`Disks`, `PathLookup`, `Listing`). A disk maps physical paths to files, directories and symbolic links;
  lookup follows links up to the limit. Each file operation is a function on disks.
* **Runs** (`FileSystems`, `Directories`, `InstallCopies`, `FilePlans`, `UndoLogs`, `Rollbacks`, `WorkspaceCopies`).
  The class `FileSystem` performs one operation at a time. Before each operation others may add nodes (`arrivals`), and any operation may
  break (`fails`, and `removalFails` for removals). The ghost field `trace` holds every state of the disk, so a
  statement about all states of `trace` is a statement about a crash after any step. `Quiet` means that nobody else
  writes, `Calm` that nothing breaks, `CleanupWorks` that no removal breaks, and `UndisturbedFrom` that neither happens
  from some time on.
* **Examples** (`ExamplePackages`, `ExampleExpectations`, `ExampleRuns`, `ExampleInstalls`, `DeadRoots`). One package, file
  by file, with the manifest that `build-manifest` writes for it, and whole runs of the installers on it: for every sound host,
  the inputs of the findings below.

## What was found

* Canonical text is a complete invariant of a value up to key order, except for numerals too large for a number:
  `1e999` reads as an infinity and prints as `null`, so it has the canonical text of `null`
  (`CanonicalLaw.CanonicalTextComplete` is the exact statement, `CanonicalLaw.InfinityPrintsAsNull` the example).
* `canonicalPath` is idempotent except at the limit on links: a path whose lookup runs out of links may have a
  canonical path whose lookup does not (`Boundary.CanonicalIdempotent` is exact; with twice the links the lookup would
  have succeeded, `LinkLimits.ReachedNeedsMoreLinks`). There a target can pass the overlap test and be made inside a
  protected root. Both failures occur on every host that follows links at all, whatever its limit
  (`LinkLimits.CanonicalNotIdempotent`, `LinkLimits.UnsettledEscapes`).
* The overlap test compares canonical paths as they are before the run, and takes a link that leads nowhere for a
  missing name. What counts is the place that a path names when such links are followed too: it does not change while
  files and directories are added, and whenever something is there the path leads to it (`NamedPlaces.FindIsDenoted`).
  The installation lies in a protected root exactly when that root named a place at or above the install root before the
  run, and the two overlap exactly when it named a place that is not apart from the install root and is there now
  (`InstallLaws.ProtectedExactly`; for targets that are not their own canonical path, `LinkLimits.LandsInRoot`). The test
  sees this for every root on whose canonical path no link is, and then it passes in every later state too
  (`InstallLaws.StraightRootsAreProtected`). It misses exactly the other roots (`NamedPlaces.TestSees`): with a protected
  root `/p` that leads to the missing `/a/b`, the package is installed at `/a/b/t`, which is `/p/t`
  (`DeadRoots.DeadRootEscapes`, and `DeadRoots.InstallIntoProtected` as a run; `DeadRoots.DeadRootBlocksRetry` for a
  run that failed).
* After such a run the same arguments no longer pass the test. A retry is possible, an installation is found again and
  `uninstall` accepts it exactly when the test still passes (`InstallLaws.RetryIsPossible`, `InstallLaws.SecondInstall`,
  `UninstallLaws.InstalledIsRemovable`; when it does, `InstallLaws.BoundaryLater`, `InstallLaws.BoundaryAfterInstall`).
* A source such as `../name/policy` that climbs out of a package and comes back into it is accepted; any other source
  that climbs out is refused (`SourceTargets.ClimbingSourceRefused`).
* A package that ships a file named `*.tmp` or `*.partial` can be installed, but a second run takes the complete
  installation for an incomplete one (`InstallLaws.SecondInstall` is exact, `ExampleInstalls.InstallTwice` a run).
* `readManifest` does not check the package identity, but the workspace installer demands it of a record it finds.
  A package with another identity installs and verifies, but its second installation fails
  (`WorkspaceLaws.WorkspaceInstallVerifies` is exact, `ExampleRuns.InstallTwice` a run).
* `parseArguments` accepts the names that every object inherits, such as `constructor`, as flags with a value and
  ignores them (`Arguments.InheritedMeansNothing`, `Arguments.ConstructorIsAccepted`).
* The rollback of the workspace installer restores every file, but not the directories. A directory stays if a file or
  link that the run did not create lies anywhere below it (`RollbackLaws.LeafKeepsDirectories`). Without links on the
  ways, it goes exactly when it lies strictly inside the workspace, no such file or link is below it, and every
  directory at or below it leads to a file that the run created (`RollbackLaws.DirectoryGoneExactly`). So directories
  that were there before and held nothing but empty directories are lost (`ExampleRuns.InstallClashing` is a run that
  loses two). Conversely, new directories that were made for the file at which the run failed stay, and so do the
  directories above them (`RollbackLaws.NewDirectoriesOnWays` says where they lie).

## Model

| member | source | states |
|---|---|---|
| `CanonicalLaw.CanonicalTextComplete` | scripts/package-lib.mjs:38-43 | two values have one canonical text exactly when what printing keeps of them is equal up to key order at every depth |
| `CanonicalLaw.FiniteTextComplete` | scripts/package-lib.mjs:38-43 | for values as `JSON.parse` returns them without infinities: one canonical text exactly when they are equal up to key order at every depth |
| `CanonicalLaw.InfinityPrintsAsNull` | scripts/package-lib.mjs:38-43 | the exception: an infinite number and null have one canonical text |
| `CanonicalLaw.DigestComplete` | scripts/package-lib.mjs:45-50 | equal digests mean equal values up to key order, or name two texts that collide |
| `CanonicalLaw.CanonicalKeeps` | scripts/package-lib.mjs:38-43 | `canonical` sorts the keys at every depth and keeps the value |
| `JsonRoundTrip.ParseInvertsPrint` | scripts/package-lib.mjs:482-483 | parsing undoes printing, with any indentation and a line break at the end |
| `ParsedValues.ParseProper` | scripts/package-lib.mjs:271 | what parsing returns has each key once, in property order, stable numbers and nothing undefined |
| `RecordedFields.EntriesAgree` | scripts/package-lib.mjs:502-504 | a record of strings is determined entry by entry by its canonical text |
| `JsonTrees.ParseIsGrammar` | scripts/package-lib.mjs:271 | `JSON.parse` succeeds on exactly the texts that the grammar of RFC 8259 spells, and returns what their tree means |
| `JsonGrammar.NumeralIsSpelled` | scripts/package-lib.mjs:271 | a numeral is an optional sign, digits without a leading zero, an optional fraction and an optional exponent |
| `JsonLayout.SerializeIsLaidOut` | scripts/package-lib.mjs:48 | `JSON.stringify` prints the one text that spells the value with the given layout and the shortest escapes; without a gap it has no white space outside strings |
| `WrittenTexts.CanonicalTextIsTight` | scripts/package-lib.mjs:45-50 | the text that is hashed and compared has no white space between its tokens |
| `WrittenTexts.ManifestFileText` | scripts/build-manifest.mjs:179 | the manifest file is laid out with four spaces for each level and ends with a line break |
| `WrittenTexts.RecordFileText` | scripts/package-lib.mjs:481-485 | the record is laid out with two spaces for each level and ends with a line break |
| `CodeUnits.LessIsUnitOrder` | scripts/package-lib.mjs:41 | the order of keys is the order of their UTF-16 code units |
| `CodeUnits.IndexIsNumber` | scripts/package-lib.mjs:41-42 | the keys that an object lists first are exactly the decimal numbers below 2^32 - 1 |
| `PathSteps.SegsRules` | scripts/package-lib.mjs:219 | an absolute path is read part by part: a name goes down, `..` up but not past the root, `.` and an empty part nowhere |
| `PathSteps.ResolveClimbs` | scripts/package-lib.mjs:173 | `path.resolve` goes up one name for each leading `..`, stops at the root, and goes down the names that follow |
| `PathSteps.RelativeLeadsBack` | scripts/package-lib.mjs:77 | `path.resolve` undoes `path.relative`, for all absolute paths |
| `PathSteps.NormalizeKeepsPlace` | scripts/package-lib.mjs:407-410 | a normalised relative path denotes the same from every directory |
| `PathSteps.JoinPathClimbs` | scripts/package-lib.mjs:407-410 | the target of a file in a directory denotes that file below the directory target, and starts with exactly the `..` by which the directory target climbs out |
| `Containment.OverlapsMeansPrefix` | scripts/package-lib.mjs:232-242 | `overlaps` holds exactly when one name list starts the other, for every string, and is symmetric |
| `Containment.StaysInsideMeansPrefix` | scripts/package-lib.mjs:233-236 | the string test on `path.relative` is containment, also for names that start with two dots |
| `Containment.PackageRelativePathMeans` | scripts/package-lib.mjs:75-89 | `packageRelativePath` succeeds exactly strictly below the source root, and returns the names below it |
| `Containment.SafeTargetsAgree` | scripts/install-workspace.mjs:19-32 | on every string both `safeTarget` functions return the same, strictly inside the workspace; the second guard never fires |
| `PathLemmas.DirnameDropsLast` | scripts/install-workspace.mjs:67-74 | `path.dirname` of a normalised path drops its last name, so climbing shortens the path |
| `PathLemmas.ResolveAppends` | scripts/verify-workspace-install.mjs:26 | `path.resolve` of a relative path without `..` on any absolute base appends its names |
| `PathLemmas.JoinPathAppends` | scripts/package-lib.mjs:477 | `path.join` of a root and a target without `..` appends its names and keeps a trailing separator |
| `MappingLaw.SourceBelow` | scripts/package-lib.mjs:398-401 | the `startsWith` test on a source is containment below the source root |
| `SourceTargets.ClimbingSourceRefused` | scripts/package-lib.mjs:398-402 | a source with `n` leading `..` is refused unless the path that many names above the root, and then down, lies strictly below the root and exists |
| `SourceTargets.TargetAllowedMeans` | scripts/install-workspace.mjs:19-25 | a workspace target starts with one of the two directories and has no two dots between separators, of either kind |
| `Listing.ListTreeExact` | scripts/package-lib.mjs:62-73 | `walkFiles` succeeds exactly when there is no link below, and lists every file once |
| `Artifacts.ArtifactKeyIs` | scripts/package-lib.mjs:100-108 | an artifact is recorded under what `packageRelativePath` gives for its file |
| `Artifacts.CollectExact` | scripts/package-lib.mjs:91-112 | the collected digests are exactly those of the files under the six artifact roots, each key once |
| `PackageContents.CollectedInOrder` | scripts/package-lib.mjs:103-111 | the collected digests are listed in locale order of their paths |
| `PackageContents.ArtifactRoots` | scripts/package-lib.mjs:94-108 | the artifacts are the files in `agents`, `contracts`, `graph`, `policy`, `scripts` and `skills` |
| `BoundFields.AcceptedIsIntact` | scripts/package-lib.mjs:266-388 | the checks of `readManifest`, told from the disk: the manifest file parses to a signed object of the schema, there is no link, the artifact digests are those of the six directories, each of the seventeen fields repeats the digest of its file, both lists name just their files, every listed agent has its file |
| `PackageContents.AcceptedPinsFiles` | scripts/package-lib.mjs:289-314 | packages whose accepted manifests say the same have the same files in the six directories, with the same contents or a collision |
| `PackageContents.OtherFilesAreFree` | scripts/package-lib.mjs:94-108 | any change outside the six directories and the manifest file that adds no link keeps the manifest accepted |
| `ReadManifests.ReadManifest` | scripts/package-lib.mjs:266-388 | for any root, also behind links: it returns a manifest exactly when the package at its real path has an acceptable one, and returns that one |
| `ReadManifests.CompareArtifacts` | scripts/package-lib.mjs:289-311 | the two set differences and the loop decide equality of the recorded and the computed artifacts |
| `ReadManifests.RequireArtifactBindings` | scripts/package-lib.mjs:205-216 | it accepts exactly when the field repeats the digests of exactly the required files, all present |
| `ManifestSoundness.AcceptedPinsArtifacts` | scripts/package-lib.mjs:289-314 | two states accepted under one manifest have the same artifact files and contents, or a collision |
| `ManifestSoundness.UnrelatedChangeAccepted` | scripts/package-lib.mjs:289-314 | any change elsewhere that adds no link keeps the manifest acceptable |
| `ManifestSoundness.RecordedDigest` | scripts/package-lib.mjs:91-112 | the digest recorded for an artifact is that of its content |
| `BuildThenRead.BuiltIsAccepted` | scripts/build-manifest.mjs:26-179 | the written manifest is accepted by `readManifest` exactly when all bound and writer-stage files exist |
| `BuildThenRead.BuildsAccepted` | scripts/build-manifest.mjs:26-179 | a package without links that has every bound file gets an accepted manifest that carries the declared identity and install targets |
| `BuildThenRead.DeclaredReadsBack` | scripts/build-manifest.mjs:31-177 | each descriptive field of the written manifest reads back under its name with its value |
| `BuildThenRead.BuiltAgents` | scripts/build-manifest.mjs:17-42 | the written manifest lists the seven agents that have a file, each with the digest of that file, and no other |
| `BuildThenRead.ReadBack` | scripts/build-manifest.mjs:178-179 | the printed manifest parses to the built one without its undefined fields |
| `BuildThenRead.ReadSelfDigest` | scripts/package-lib.mjs:56-60 | the self-digest is the same before printing and after parsing, also when fields were undefined |
| `Mappings.CollectSourceMappings` | scripts/package-lib.mjs:390-438 | the loops compute the compiled mappings, or the first error |
| `MappingLaw.MappingsComplete` | scripts/package-lib.mjs:390-438 | exactly one mapping for each file an install target asks for, with its content digest, to different sorted targets |
| `SourceTargets.CompilesExactly` | scripts/package-lib.mjs:390-438 | install targets compile exactly when they are a list, each source lies strictly below the root and exists, each file asked for is an artifact or the manifest and its target stays inside, and no target is asked for twice |
| `InstallRecords.RecordKeys` | scripts/package-lib.mjs:446-458 | the record carries its schema, and the identity, the version and both digests of the manifest under the same names |
| `InstallRecords.RecordSigned` | scripts/package-lib.mjs:456 | the record has these seven fields only, the last one its own digest |
| `InstallRecords.RecordsFitOneManifest` | scripts/package-lib.mjs:502-504 | a record passes for that of another package only if the manifests say the same, or the hash collides on their texts |
| `MappingLaw.OwnershipFiles` | scripts/package-lib.mjs:446-458 | the ownership record has one entry for each mapping and no other |
| `Mappings.ExpectedInstall` | scripts/package-lib.mjs:460-467 | for any root, also behind links: it returns what the package prescribes, and fails only if it prescribes nothing |
| `SourceFrame.ExpectedKept` | scripts/package-lib.mjs:460-467 | a package prescribes the same while its manifest file, its artifact files and what its install targets ask for stay and no link appears |
| `SourceFrame.ExpectedSame` | scripts/package-lib.mjs:460-467 | what a package prescribes depends only on the tree at its source root |
| `TargetLayouts.SeparateIsInstallable` | scripts/package-lib.mjs:390-438 | normalised targets, none at or below another or the record, make every package installable |
| `TargetLayouts.ShippedIsInstallable` | scripts/build-manifest.mjs:120-145 | under the declared targets every package with an accepted manifest whose mappings compile can be installed |
| `InstalledTrees.VerifyInstalled` | scripts/package-lib.mjs:488-531 | for any two roots, also behind links: it accepts exactly the prescribed tree at the real path: the record, each mapped file with its digest, no other file, no link |
| `InstallRecords.InstalledExactly` | scripts/package-lib.mjs:488-531 | the installed tree, told from the disk: no link, the record under its name, each file with the digest of its source, no other file |
| `InstalledTrees.CheckNames` | scripts/package-lib.mjs:506-519 | the length and membership tests decide equality of the file sets |
| `InstalledTrees.Pigeonhole` | scripts/package-lib.mjs:516-519 | for a list without repetition, equal length and membership are set equality |
| `CopyTrees.CopyAllExact` | scripts/package-lib.mjs:475-480 | the copies succeed exactly when no target is at or below another, and then build just that tree |
| `CopyVerification.CopyThenVerify` | scripts/package-lib.mjs:469-531 | copying into an empty directory and verifying succeeds exactly when the targets are installable |
| `CopyVerification.OwnershipReadsBack` | scripts/package-lib.mjs:481-485 | the written ownership record reads back as the record |
| `InstallCopies.CopyInstallTree` | scripts/package-lib.mjs:469-486 | it does what its specification says or stops on the way, and in every state adds nothing outside the staging tree |
| `Boundary.CanonicalPath` | scripts/package-lib.mjs:218-230 | the climb ends, never fails, and returns the real path of the longest existing ancestor and the missing names |
| `Boundary.ExistingLengthIs` | scripts/package-lib.mjs:222-227 | the ancestor is the longest that exists |
| `Boundary.CanonicalIdempotent` | scripts/package-lib.mjs:218-230 | canonicalising twice changes nothing exactly when the first missing name cannot be reached from the real start |
| `LinkLimits.ReachedNeedsMoreLinks` | scripts/package-lib.mjs:218-230 | where canonicalising twice differs, the lookup that failed would have succeeded with twice the links |
| `LinkLimits.LandsAtCanonical` | scripts/package-lib.mjs:218-230 | what is made at a missing path lands at its canonical path |
| `LinkLimits.LandsInRoot` | scripts/package-lib.mjs:218-264 | what is made at a missing target lies in a root exactly when the root named a place at or above the canonical path of the target |
| `LinkLimits.TestSpeaksForPlace` | scripts/package-lib.mjs:244-264 | being apart from the target means being apart from where the target is made, for every fixed place, exactly when the target is its own canonical path |
| `LinkLimits.CanonicalNotIdempotent` | scripts/package-lib.mjs:218-230 | for every limit on links, a path whose canonical path has another canonical path |
| `LinkLimits.UnsettledEscapes` | scripts/package-lib.mjs:244-264 | for every limit on links, a target that passes the overlap test and lies physically in a protected root |
| `NamedPlaces.FindIsDenoted` | scripts/package-lib.mjs:218-230 | now and while files and directories are added, a path leads to the place it names exactly when something is there, and nowhere else |
| `NamedPlaces.DenotesCanonical` | scripts/package-lib.mjs:218-230 | a path names its canonical path exactly when no link is on that |
| `NamedPlaces.TestSees` | scripts/package-lib.mjs:232-264 | the overlap test accepts a root exactly when it names a place apart from the target or has a link on its canonical path |
| `NamedPlaces.BoundaryProtects` | scripts/package-lib.mjs:244-264 | what is made lies in what a path leads to exactly when the path named a place at or above it, and overlaps it exactly when the named place is not apart from it and is there |
| `Boundary.ValidateInstallBoundary` | scripts/package-lib.mjs:244-264 | it accepts exactly a target that is not the root and is apart from the source and every protected root |
| `Boundary.SettledTame` | scripts/package-lib.mjs:218-230 | on the way to a settled canonical path there are only dead links |
| `Transactions.IncompleteMeans` | scripts/package-lib.mjs:537-551 | what the test finds: a partial sibling, or a target that is no directory, holds a link, or holds a file in the making |
| `Transactions.SiblingIsRecognised` | scripts/package-lib.mjs:533-543 | every staging tree has a name that the test recognises |
| `Transactions.InstalledMoves` | scripts/install.mjs:59 | whether a tree is the installation does not depend on where it is, so renaming publishes what was verified |
| `FileSystems.RenameKeepsLeaves` | scripts/install.mjs:59 | renaming a directory moves every file in it and loses none: a directory that holds anything is not replaced |
| `Installer.Install` | scripts/install.mjs:19-75 | every state is safe to crash in; a failed run whose cleanup works leaves no staging tree; when nothing breaks it installs exactly when possible, and reports current exactly when it is |
| `Installer.Transaction` | scripts/install.mjs:45-65 | the try block with its catch: published whole and verified, or abandoned |
| `Installer.MakeStaging` | scripts/install.mjs:46-47 | parent directories and an empty staging directory, nothing else |
| `Installer.FillStaging` | scripts/install.mjs:48-58 | it ends with exactly the prescribed tree in the staging directory, which it reaches exactly when the targets are installable |
| `Installer.PublishStaging` | scripts/install.mjs:59 | the target appears with the whole tree or not at all |
| `Installer.Abandon` | scripts/install.mjs:60-64 | the catch block removes the staging tree and nothing else |
| `InstallLaws.BoundaryExactly` | scripts/package-lib.mjs:244-264 | the test passes exactly when every root names a place apart from the target or has a link that leads nowhere on its canonical path |
| `InstallLaws.ProtectedExactly` | scripts/package-lib.mjs:244-264 | an installation lies in or overlaps a protected root exactly as the place that the root named before the run says; of the roots that pass the test only those with a link on their canonical path can be hit |
| `InstallLaws.StraightRootsAreProtected` | scripts/package-lib.mjs:244-264 | with no link on the canonical paths of the roots, a test that passes is enough: it passes in every later state and no root overlaps the installation |
| `InstallLaws.BoundaryLater` | scripts/package-lib.mjs:244-264 | when the test passes in a later state, in terms of the places that the roots named before |
| `InstallLaws.ProtectedRootsUntouched` | scripts/package-lib.mjs:244-264 | in no state of a run does anything change at or below the place that a root names, there or not, if it is apart from the target and the staging tree |
| `DeadRoots.DeadRootEscapes` | scripts/package-lib.mjs:218-264 | a root that leads nowhere passes the test, the installation lies in it, and the test fails once the directory above the target is there |
| `DeadRoots.InstallIntoProtected` | scripts/install.mjs:19-75 | the example package: installed into the protected root, then refused by a second run and by `uninstall` |
| `InstallLaws.CrashBlocksNextRun` | scripts/install.mjs:23-25 | a staging tree left by a crash makes the next run with the same arguments refuse |
| `InstallLaws.RetryIsPossible` | scripts/install.mjs:60-65 | after a failed run that cleaned up, an installation that was possible before is possible again exactly when the overlap test still passes |
| `InstallLaws.SecondInstall` | scripts/install.mjs:26-41 | after an installation the next run finds it current exactly when no target is named like a file in the making and the overlap test still passes |
| `ExampleInstalls.InstallTwice` | scripts/install.mjs:26-41 | the example package with a file `x.tmp`: the first run installs it, the second refuses although the installation is exact |
| `InstallLaws.BoundaryAfterInstall` | scripts/package-lib.mjs:244-264 | after an installation the test passes if all roots named places apart from it, and only if no root overlaps it now |
| `InstallLaws.CanonicalStays` | scripts/package-lib.mjs:218-230 | while files and directories are added, a canonical path without links stays canonical |
| `Uninstaller.Uninstall` | scripts/uninstall.mjs:14-33 | it removes exactly the tree it verified, and changes nothing unless the installation is exact |
| `UninstallLaws.PartlyRemovedIsRefused` | scripts/uninstall.mjs:17-25 | an installation that lost files is refused by both scripts, with the disk unchanged |
| `UninstallLaws.InstalledIsRemovable` | scripts/uninstall.mjs:14-25 | `uninstall` accepts what `install` made, with the same arguments, exactly when the overlap test still passes |
| `UninstallLaws.UninstallUndoesInstall` | scripts/uninstall.mjs:25 | removing what an installation published leaves only directories on the way to it |
| `Directories.MakeDirectories` | scripts/install-workspace.mjs:129-131 | recursive creation, a step at a time, loses nothing and adds only directories on the way |
| `Directories.RemoveRecursively` | scripts/uninstall.mjs:25 | recursive removal, a leaf at a time, takes only nodes at or below its path |
| `UndoLogs.LoggedCreates` | scripts/install-workspace.mjs:132-137 | each created file is one new entry of the log, at a place where nothing was |
| `UndoLogs.LoggedUndoes` | scripts/install-workspace.mjs:149-150 | removing the last entry removes just the file it created, whatever was added meanwhile |
| `UndoLogs.LoggedPrunes` | scripts/install-workspace.mjs:66-76 | removing an empty directory disturbs neither files nor the rest of the log |
| `FilePlans.CreateEachExact` | scripts/install-workspace.mjs:128-147 | without links on the ways, files and their directories can be created exactly when every target is vacant and none lies at or below another; then just they are added |
| `WorkspaceCopies.CreateAll` | scripts/install-workspace.mjs:126-147 | the files created are a prefix of the targets, all of them with their contents on success; a quiet run does what the plan says, and as far as it can |
| `Rollbacks.TidyIsUndone` | scripts/install-workspace.mjs:148-152 | when the directories on the way to the removed files that are left are not empty, what is gone is just those files and the directories holding nothing else |
| `WorkspaceCopies.RemoveEmptyParents` | scripts/install-workspace.mjs:66-76 | it visits only directories strictly between the workspace root and the file, upwards, and disturbs no file; undisturbed it takes just the empty ones |
| `WorkspaceCopies.RollBack` | scripts/install-workspace.mjs:148-152 | the log is undone entry by entry in reverse order, down to nothing unless a removal breaks; directories go only by the ways to created files, and undisturbed exactly those that go with them |
| `RollbackLaws.LeafKeepsDirectories` | scripts/install-workspace.mjs:66-76 | a directory with an earlier or foreign file or link at any depth is there after a rollback |
| `RollbackLaws.DirectoryGoneExactly` | scripts/install-workspace.mjs:66-76 | a directory is gone exactly when it lies strictly inside the workspace, no file or link of others lies below it, and every directory at or below it leads to a created file |
| `RollbackLaws.NewDirectoriesOnWays` | scripts/install-workspace.mjs:129-131 | in a quiet run every directory that a failed run leaves lies on the way to a created target or the one after it |
| `ExampleRuns.InstallClashing` | scripts/install-workspace.mjs:126-152 | the example package with one target below another: the run fails and takes away two empty directories that were there before |
| `WorkspaceInstaller.VerifyOwnedFiles` | scripts/install-workspace.mjs:42-64 | it accepts exactly a record with the schema, the identity and files that are there with their digests |
| `WorkspaceInstaller.CheckCurrent` | scripts/install-workspace.mjs:97-116 | it reports current exactly when the record matches, the files hold and the package carries its identity |
| `WorkspaceInstaller.InstallWorkspace` | scripts/install-workspace.mjs:78-165 | no earlier file is lost in any state; a failed run whose cleanup works leaves every file as it was and those of others; success creates exactly the mapped files and the record; a quiet run in which nothing breaks succeeds exactly when the package fits; a conflict changes nothing |
| `WorkspaceLaws.FitsExactly` | scripts/install-workspace.mjs:118-147 | without links on the ways, a package fits exactly when its targets are allowed, nothing is at them or in their way, and none lies at or below another |
| `WorkspaceLaws.InstalledIsFilled` | scripts/install-workspace.mjs:128-147 | a quiet installation adds the targets with their contents and the directories on the way to them, and nothing else |
| `WorkspaceLaws.WorkspaceInstallAdds` | scripts/install-workspace.mjs:126-147 | one new file for each mapping and the record, at different places where nothing was, with their contents, and no other new file |
| `WorkspaceLaws.WorkspaceInstallVerifies` | scripts/verify-workspace-install.mjs:29-79 | when what the prescription rests on is kept, the verifier accepts what was installed; a second run finds it current exactly when the package is identified |
| `WorkspaceLaws.SelfInstallKeeps` | scripts/install-workspace.mjs:126-147 | a quiet installation of a package into its own source root keeps what its prescription rests on, if no install target asks for something in the two owned directories |
| `ExampleRuns.InstallTwice` | scripts/install-workspace.mjs:97-116 | the example package under any identity: installed and verified; the second run is current exactly under the name that the installer demands |
| `Workspaces.VerifyWorkspace` | scripts/verify-workspace-install.mjs:29-79 | it accepts exactly a workspace whose record and files are those that the package prescribes |
| `WorkspaceContents.VerifiedExactly` | scripts/verify-workspace-install.mjs:29-79 | the verifier, told from the disk: the record file says what the package prescribes, and at each target is a regular file, no link, with the digest of its source |
| `WorkspaceContents.VerifiedPinsFiles` | scripts/verify-workspace-install.mjs:59-60 | two accepted states for one package have the same file contents at every target, or a collision |
| `WorkspaceContents.ChangedFileIsRefused` | scripts/install-workspace.mjs:59-60 | when one installed file changes without a collision, the verifier refuses, and no second run finds it current |
| `Workspaces.WorkspaceTargetIs` | scripts/verify-workspace-install.mjs:19-27 | a target resolves strictly below the workspace, or is refused |
| `Arguments.ParseArguments` | scripts/package-lib.mjs:149-178 | it accepts exactly the spelled-out lists of `--json`, the seven flags and the inherited names with values; each field gets the last value, or all values, given under its own flag |
| `Arguments.StoreMeans` | scripts/package-lib.mjs:161-175 | one more flag and value: the value goes to the field of that name, replacing or appended, and to no other |
| `Arguments.ConstructorIsAccepted` | scripts/package-lib.mjs:166-175 | the command line `constructor x` is accepted |
| `Arguments.ItemsAreDetermined` | scripts/package-lib.mjs:155-176 | the grammar is unambiguous |

## Left out

- Installer.Install: requires that the canonical roots are their own canonical paths, which fails only at the limit on links, and that nobody else writes during the run; two installers at once are not modelled.
- InstallLaws.CrashBlocksNextRun: requires that no link is on the way to the source or the target, so that a crash cannot bring a dead one to life.
- Installer.Abandon: says that the staging tree is gone only if no removal breaks.
- Uninstaller.Uninstall: requires a run in which nobody else writes.
- RollbackLaws.DirectoryGoneExactly: requires that nothing interferes from the first removal on and that no link is on the way to a created file; for other runs `Rollbacks.DirsTaken` says where directories can go.
- WorkspaceInstaller.InstallWorkspace: restores files and links, not directories; a failed copy is assumed to leave no file of its own, and others only add nodes.
- WorkspaceLaws.WorkspaceInstallVerifies: requires that the run leaves alone what the package prescription rests on, since the workspace may reach into the source; `WorkspaceLaws.OwnedChangeKeeps` and `SourceFrame.SameKeepsPackage` say when it does.
- InstallLaws.ProtectedRootsUntouched: a root that names a missing place inside the staging tree is left out; the staging name is random.
- UninstallLaws.PartlyRemovedIsRefused: speaks of installations whose directory remains.
- BuildManifests.BuildManifest: the identity and the descriptive lists of the manifest are parameters, and the source commit is given; the `git` call is left out.
- Arguments.ParseArguments: receives the arguments as strings; the environment is left out.
- ReadManifests.ReadManifest: names that every object inherits are not looked up as artifact paths, and a digest that is no string is refused with another code than the script's.
- Strings with unpaired surrogates, names with NUL bytes, and file contents that are not UTF-8 where text is read: decoding is a parameter.
- Link destinations with `..`, special files, permissions, and Windows path rules.
- SHA-256, UTF-8, rounding of numbers, locale order and directory order: parameters of the host.
- Process ids and random bytes: the suffix of the staging name is a parameter.
- `output`, `reportError` and the receipts: reporting only.
- `scripts/discover.mjs`, `scripts/verify-install.mjs` and the runtime-state checks: they report or combine tests modelled here.
- The lifecycle and runtime scripts under `skills/`, the schemas, policies, agents and prompts: separate programs or finite data.
