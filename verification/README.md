# NuGet restore nomination: restore-info builder, change gate, keyed lists

A Dafny model of the deterministic core behind the managed project system's
NuGet restore nomination. Each batch carries one project subscription update
per active configuration. The model covers three parts:

- **The change gate** (`NuGetRestorer.GetRestoreInfo`). It decides whether a
  batch warrants building restore info. Its one piece of state,
  `_needToNominateRestore`, remembers changes seen while a design-time build
  was failing. The gate reads three predicates on an update:
  `HasDesignTimeBuildFailure`, `HasChangesToNominate` and
  `HasTargetFrameworkChanged`.
- **The restore-info builder** (`ProjectRestoreInfoBuilder.Build` /
  `GetReferences`). It folds the updates into one `ProjectRestoreInfo`:
  - the first non-null base intermediate path wins;
  - there is one `TargetFrameworkInfo` per moniker, taken from the first
    update that names that moniker;
  - every item dictionary is flattened into an ordered list of reference
    items.
- **The keyed list** (`ItemList<T>.Item`, and `VsItemList<T>.Item`, which has
  the same code). It looks an element up by name (the first match, or null)
  or by position.

Files, one module each:

- `wrappers.dfy`: `Option` (a nullable reference) and `Result` (a value, or
  what was thrown).
- `item_lists.dfy`: the keyed list. The class `ItemList` has the list as a
  `seq` field, `Add`, and the read-only `Item`. `Lookup` is the pure function
  that specifies `Item`.
- `subscription.dfy`: the shape of an update. It maps a rule name to the
  rule's state after the change (properties and items) and its difference.
- `restore_info.dfy`: `ProjectRestoreInfo`, `TargetFrameworkInfo`,
  `ReferenceItem`, `ReferenceProperty`, and the `GetName` key of each list:
  - the framework list is keyed by `TargetFrameworkMoniker`;
  - reference item lists are keyed by `Name`;
  - reference property lists are keyed by `Name`.
- `restore_info_builder.dfy`: `GetReferences` and the method `Build`. `Build`
  is a loop that appends to an `ItemList`. It is proved equal to `BuildSpec`,
  a fold of `Step` over the prefixes of the updates.
- `build_properties.dfy`: what `Build` promises, proved of `BuildSpec`.
- `nuget_restorer.dfy`: the predicates, the decision rule `Decide`, the class
  `NuGetRestorer` with the pending flag, and lemmas about sequences of batches.
- `test_scenarios.dfy`: the builder's unit-test scenarios and a client of the
  gate.

Points to note about what the code does:

- A missing rule or property is not a precondition. The dictionary indexers
  at ProjectRestoreInfoBuilder.cs lines 19-26 throw, and the model returns
  `Err` (`MissingRule` / `MissingProperty`) in the same situations.
  - `??` short-circuits, so `BaseIntermediateOutputPath` is read only while
    the path is still null.
  - The reference rules are read only for a moniker not seen before.
- An empty-string base path wins, as `??` only skips null.
- An empty list of updates yields a restore info with a null path and no
  frameworks, not an error.
- A null moniker reaches `Item(object)` as something that is not a string,
  so the lookup returns null. Every update with a null moniker therefore adds
  its own entry. Deduplication and `BuildMonikersDistinct` concern non-null
  monikers only. `BuildMonikersInOrder` keeps every null, and
  `BuildFrameworks` states that each such entry is built from the
  references of its own update.
- `GetRestoreInfo` clears the pending flag before it calls `Build`. When
  `Build` throws, the flag is therefore already cleared; `GetRestoreInfo`
  states this.
- `NuGetRestorer.cs:171` calls a two-argument `Build`. Only the one-argument
  `Build` of ProjectRestoreInfoBuilder.cs exists, and that is the one
  modelled.
- `Build(null)` cannot be written: a Dafny sequence is never null.
- The unit test at ProjectRestoreInfoBuilderTests.cs lines 46-69 expects
  `Build` to return null for an update without changes. The `Build` shown
  never returns null: on that update it throws, because the update's
  ConfigurationGeneral rule has no `BaseIntermediateOutputPath` property
  (`TestScenarios.NoChangesBuildThrows`). A null for such a batch comes only
  from the gate (`TestScenarios.NoChangesReturnsNull`).
- The design-time build subscription (NuGetRestorer.cs lines 33-38) watches
  NuGetRestore, ProjectReference, PackageReference, CompilerCommandLineArgs
  and DotNetCliToolReference, but not ConfigurationGeneral, which `Build`
  reads first (ProjectRestoreInfoBuilder.cs line 19). Which rules the host
  puts into an update is outside this model. An update holding only the
  watched rules makes `Build` throw (`NuGet.WatchedRulesOnlyBuildThrows`).
- `Build` throws exactly when some update lacks what its iteration reads
  (`BuildProperties.BuildOkIff`): the ConfigurationGeneral rule and its
  moniker property always, the base path property until a non-null path
  has been read, and both reference rules at a moniker's first appearance.

## Model

| member | source | states |
|---|---|---|
| `ItemLists.NameIndex` | src/Microsoft.VisualStudio.ProjectSystem.Managed.VS/ProjectSystem/VS/Nuget/RestoreInfoDataStructures.cs:21-32 | a string boxed as `object` is a name index exactly when it is non-null; a null string falls to the "other" branch, never to the position branch |
| `ItemLists.FindFirst` | src/Microsoft.VisualStudio.ProjectSystem.Managed.VS/ProjectSystem/VS/Nuget/VsItemList.cs:22-24 | the position found holds an element whose key equals the name, no earlier element matches, and nothing is found exactly when no element matches |
| `ItemLists.Lookup` | src/Microsoft.VisualStudio.ProjectSystem.Managed.VS/ProjectSystem/VS/Nuget/RestoreInfoDataStructures.cs:19-33 | by name: null exactly when no key equals the name, else the earliest element with that key; by position `0 <= i < Count`: element `i`; any other index: null |
| `ItemLists.LookupFirstShadows` | src/Microsoft.VisualStudio.ProjectSystem.Managed.VS/ProjectSystem/VS/Nuget/VsItemList.cs:20-34 | the earliest element with the key is returned, so later duplicates are shadowed |
| `ItemLists.LookupAppend` | src/Microsoft.VisualStudio.ProjectSystem.Managed.VS/ProjectSystem/VS/Nuget/RestoreInfoDataStructures.cs:21-24 | after `Add`, a name lookup still returns an earlier match; otherwise it returns the new element if its key matches, else null |
| `ItemLists.ItemList.constructor` | src/Microsoft.VisualStudio.ProjectSystem.Managed.VS/ProjectSystem/VS/Nuget/RestoreInfoDataStructures.cs:13-17 | a new list is empty and keyed by the given `GetName` |
| `ItemLists.ItemList.Add` | src/Microsoft.VisualStudio.ProjectSystem.Managed.VS/ProjectSystem/VS/Nuget/ProjectRestoreInfoBuilder.cs:28-33 | the element is appended at the end and nothing else changes |
| `ItemLists.ItemList.Item` | src/Microsoft.VisualStudio.ProjectSystem.Managed.VS/ProjectSystem/VS/Nuget/VsItemList.cs:20-34 | returns `Lookup` of the current contents; it has no `modifies` clause, so the contents and their order are unchanged |
| `RestoreInfo.FrameworkName` | src/Microsoft.VisualStudio.ProjectSystem.Managed.VS/ProjectSystem/VS/Nuget/RestoreInfoDataStructures.cs:49 | the key of the target framework list is the entry's moniker, which may be null; lookups by it are stated by `BuildCoversMonikers` and `BuildFirstWins` |
| `RestoreInfo.ReferenceItemName` | src/Microsoft.VisualStudio.ProjectSystem.Managed.VS/ProjectSystem/VS/Nuget/RestoreInfoDataStructures.cs:67 | the key of a reference item list is the item's name; lookups by it are stated by `LookupReference` |
| `RestoreInfo.ReferencePropertyName` | src/Microsoft.VisualStudio.ProjectSystem.Managed.VS/ProjectSystem/VS/Nuget/RestoreInfoDataStructures.cs:83 | the key of a reference property list is the property's name; lookups by it are stated by `LookupProperty` |
| `RestoreInfoBuilder.GetProperties` | src/Microsoft.VisualStudio.ProjectSystem.Managed.VS/ProjectSystem/VS/Nuget/ProjectRestoreInfoBuilder.cs:50-53 | one reference property per metadata pair, same length, pair `j` becomes property `j` with the same name and value |
| `RestoreInfoBuilder.GetReferences` | src/Microsoft.VisualStudio.ProjectSystem.Managed.VS/ProjectSystem/VS/Nuget/ProjectRestoreInfoBuilder.cs:44-56 | one item per dictionary entry in enumeration order; item `i` is named by key `i` and its properties match entry `i`'s metadata pair for pair |
| `RestoreInfoBuilder.GetReferencesRoundTrip` | src/Microsoft.VisualStudio.ProjectSystem.Managed.VS/ProjectSystem/VS/Nuget/ProjectRestoreInfoBuilder.cs:44-56 | reading the reference items back as entries gives the original dictionary entries: flattening loses nothing |
| `RestoreInfoBuilder.LookupReference` | src/Microsoft.VisualStudio.ProjectSystem.Managed.VS/ProjectSystem/VS/Nuget/RestoreInfoDataStructures.cs:61-68 | with distinct keys, looking up a flattened reference list by an entry's key (the `Name` key) finds the item made from that entry |
| `RestoreInfoBuilder.LookupProperty` | src/Microsoft.VisualStudio.ProjectSystem.Managed.VS/ProjectSystem/VS/Nuget/RestoreInfoDataStructures.cs:77-84 | with distinct metadata names, looking up a flattened property list by a name (the `Name` key) finds the property made from that pair |
| `RestoreInfoBuilder.Step` | src/Microsoft.VisualStudio.ProjectSystem.Managed.VS/ProjectSystem/VS/Nuget/ProjectRestoreInfoBuilder.cs:19-34 | one loop iteration: reads the ConfigurationGeneral rule, the base path only while no path is known (`??`), the moniker, and for a moniker not yet present both reference rules, then appends; each missing key is the matching `Err`; its outcomes are stated by `StepShape` and `StepOkIff` |
| `RestoreInfoBuilder.BuildSpec` | src/Microsoft.VisualStudio.ProjectSystem.Managed.VS/ProjectSystem/VS/Nuget/ProjectRestoreInfoBuilder.cs:14-42 | the loop as a fold of `Step` over the updates in order, starting from a null path and no frameworks and stopping at the first exception; `Build` is proved to compute it |
| `RestoreInfoBuilder.BuildErrorPersists` | src/Microsoft.VisualStudio.ProjectSystem.Managed.VS/ProjectSystem/VS/Nuget/ProjectRestoreInfoBuilder.cs:17-35 | an exception on some update ends the build with that exception, whatever follows |
| `RestoreInfoBuilder.Build` | src/Microsoft.VisualStudio.ProjectSystem.Managed.VS/ProjectSystem/VS/Nuget/ProjectRestoreInfoBuilder.cs:12-42 | the loop computes `BuildSpec` (including the exceptions of the indexers); an empty list gives a null path and no frameworks |
| `BuildProperties.FirstOccurrences` | src/Microsoft.VisualStudio.ProjectSystem.Managed.VS/ProjectSystem/VS/Nuget/ProjectRestoreInfoBuilder.cs:17-34 | the reference for "distinct monikers in order of first appearance": it holds only monikers of the input and every non-null one |
| `BuildProperties.FirstOccurrencesDistinct` | src/Microsoft.VisualStudio.ProjectSystem.Managed.VS/ProjectSystem/VS/Nuget/ProjectRestoreInfoBuilder.cs:23-34 | no non-null moniker occurs twice among the first occurrences |
| `BuildProperties.BuildCoversMonikers` | src/Microsoft.VisualStudio.ProjectSystem.Managed.VS/ProjectSystem/VS/Nuget/ProjectRestoreInfoBuilder.cs:21-34 | on success, a moniker is found in the result exactly when some update names it |
| `BuildProperties.BuildMonikersInOrder` | src/Microsoft.VisualStudio.ProjectSystem.Managed.VS/ProjectSystem/VS/Nuget/ProjectRestoreInfoBuilder.cs:17-34 | on success, the monikers of the result are exactly the first occurrences of the updates' monikers, in order |
| `BuildProperties.BuildMonikersDistinct` | src/Microsoft.VisualStudio.ProjectSystem.Managed.VS/ProjectSystem/VS/Nuget/ProjectRestoreInfoBuilder.cs:23-34 | on success, no two target framework entries have the same non-null moniker |
| `BuildProperties.BuildFirstWins` | src/Microsoft.VisualStudio.ProjectSystem.Managed.VS/ProjectSystem/VS/Nuget/ProjectRestoreInfoBuilder.cs:23-33 | the entry found for a moniker carries the project and package references of the first update with that moniker; later updates are ignored |
| `BuildProperties.BuildFrameworks` | src/Microsoft.VisualStudio.ProjectSystem.Managed.VS/ProjectSystem/VS/Nuget/ProjectRestoreInfoBuilder.cs:17-34 | on success, the target framework list is exactly `FirstFrames`: in update order, one entry built from its own update's moniker and reference rules for each update whose moniker is null or not named by an earlier update, so every null-moniker entry is pinned too |
| `BuildProperties.FirstBasePath` | src/Microsoft.VisualStudio.ProjectSystem.Managed.VS/ProjectSystem/VS/Nuget/ProjectRestoreInfoBuilder.cs:14-20 | the reference for the base path: when non-null it is the value of some update and every earlier update's value is null; when null every update's value is null |
| `BuildProperties.BuildBasePath` | src/Microsoft.VisualStudio.ProjectSystem.Managed.VS/ProjectSystem/VS/Nuget/ProjectRestoreInfoBuilder.cs:14-20 | on success, the base path of the result equals `FirstBasePath`: the value of the first update with a non-null value (an empty string counts), and null when there is none |
| `BuildProperties.StepOkIff` | src/Microsoft.VisualStudio.ProjectSystem.Managed.VS/ProjectSystem/VS/Nuget/ProjectRestoreInfoBuilder.cs:19-26 | one iteration throws exactly when the ConfigurationGeneral rule or its moniker property is missing, or the base path property is missing while no path is known, or a reference rule is missing for a moniker not yet present |
| `BuildProperties.BuildOkIff` | src/Microsoft.VisualStudio.ProjectSystem.Managed.VS/ProjectSystem/VS/Nuget/ProjectRestoreInfoBuilder.cs:17-35 | the build succeeds exactly when every update carries the ConfigurationGeneral rule and its moniker property, the base path property unless an earlier update had a non-null path, and both reference rules unless an earlier update named the same non-null moniker |
| `BuildProperties.BuildSucceedsOnCompleteUpdates` | src/Microsoft.VisualStudio.ProjectSystem.Managed.VS/ProjectSystem/VS/Nuget/ProjectRestoreInfoBuilder.cs:19-26 | updates that carry the ConfigurationGeneral, ProjectReference and PackageReference rules and both configuration properties never make the build throw |
| `NuGet.HasDesignTimeBuildFailure` | src/Microsoft.VisualStudio.ProjectSystem.Managed.VS/ProjectSystem/VS/NuGet/NuGetRestorer.cs:179-186 | the first rule whose key equals the compiler command line rule's name is absent, or has no items after the change; its effect on the gate is stated by `FailedConfigurationBlocksBuild` and `GateBuildsIff` |
| `NuGet.HasChangesToNominate` | src/Microsoft.VisualStudio.ProjectSystem.Managed.VS/ProjectSystem/VS/NuGet/NuGetRestorer.cs:188-191 | some rule other than the compiler command line rule reports a change; stated by `CompilerRuleChangesIgnored` and `GateBuildsIff` |
| `NuGet.HasTargetFrameworkChanged` | src/Microsoft.VisualStudio.ProjectSystem.Managed.VS/ProjectSystem/VS/NuGet/NuGetRestorer.cs:193-203 | the NuGetRestore rule is present and one of its three framework properties changed; stated by `TargetFrameworkChangedIff` |
| `NuGet.AnyDesignTimeBuildFailure` | src/Microsoft.VisualStudio.ProjectSystem.Managed.VS/ProjectSystem/VS/NuGet/NuGetRestorer.cs:163 | some update of the batch has a design-time build failure; used by `GetRestoreInfo` and stated by `GateBuildsIff` |
| `NuGet.AnyChangesToNominate` | src/Microsoft.VisualStudio.ProjectSystem.Managed.VS/ProjectSystem/VS/NuGet/NuGetRestorer.cs:166 | some update of the batch has changes to nominate; used by `GetRestoreInfo` and stated by `GateBuildsIff` |
| `NuGet.FailedConfigurationBlocksBuild` | src/Microsoft.VisualStudio.ProjectSystem.Managed.VS/ProjectSystem/VS/NuGet/NuGetRestorer.cs:163-176 | one update whose compiler command line rule is absent or has no items stops the whole batch from being built, and a pending change stays pending |
| `NuGet.GateBuildsIff` | src/Microsoft.VisualStudio.ProjectSystem.Managed.VS/ProjectSystem/VS/NuGet/NuGetRestorer.cs:163-172 | a batch is built exactly when every update's compiler command line rule is present with items, and either the flag is set or some update reports a change in another rule |
| `NuGet.CompilerRuleChangesIgnored` | src/Microsoft.VisualStudio.ProjectSystem.Managed.VS/ProjectSystem/VS/NuGet/NuGetRestorer.cs:188-191 | only rules other than the compiler command line rule count: removing it never changes the answer, and it alone has nothing to nominate |
| `NuGet.TargetFrameworkChangedIff` | src/Microsoft.VisualStudio.ProjectSystem.Managed.VS/ProjectSystem/VS/NuGet/NuGetRestorer.cs:193-203 | true iff the NuGetRestore rule is present and its changed properties meet {TargetFrameworks, TargetFramework, TargetFrameworkMoniker}; false when the rule is absent |
| `NuGet.Decide` | src/Microsoft.VisualStudio.ProjectSystem.Managed.VS/ProjectSystem/VS/NuGet/NuGetRestorer.cs:168-176 | the four-way table: failed without changes keeps the flag; failed with changes sets it; not failed with changes or flag builds and clears it; otherwise nothing |
| `NuGet.NuGetRestorer.constructor` | src/Microsoft.VisualStudio.ProjectSystem.Managed.VS/ProjectSystem/VS/NuGet/NuGetRestorer.cs:28 | the pending flag starts cleared |
| `NuGet.NuGetRestorer.GetRestoreInfo` | src/Microsoft.VisualStudio.ProjectSystem.Managed.VS/ProjectSystem/VS/NuGet/NuGetRestorer.cs:158-177 | the batch flags are the OR of the per-update predicates; the new flag and the result follow `Decide`; a build returns the built info or the exception thrown; the new flag is `PendingAfter` of the old flag and this batch's signals, and the result is not null exactly when `BuildsAt` says the batch is built |
| `NuGet.PendingAfterSnoc` | src/Microsoft.VisualStudio.ProjectSystem.Managed.VS/ProjectSystem/VS/NuGet/NuGetRestorer.cs:168-176 | the flag after one more batch, and whether that batch is built, depend only on the flag after the earlier batches, so successive `GetRestoreInfo` calls follow `PendingAfter` over their batches |
| `NuGet.WatchedRulesOnlyBuildThrows` | src/Microsoft.VisualStudio.ProjectSystem.Managed.VS/ProjectSystem/VS/NuGet/NuGetRestorer.cs:33-38 | when the first update holds only the rules the design-time build subscription watches, the build throws for the missing ConfigurationGeneral rule |
| `NuGet.PendingKept` | src/Microsoft.VisualStudio.ProjectSystem.Managed.VS/ProjectSystem/VS/NuGet/NuGetRestorer.cs:174-175 | once a failed batch with changes sets the flag, it stays set through every following failed batch |
| `NuGet.NoChangeLost` | src/Microsoft.VisualStudio.ProjectSystem.Managed.VS/ProjectSystem/VS/NuGet/NuGetRestorer.cs:168-176 | a change seen at batch `k` is built at the first batch `j >= k` whose design-time builds succeed |
| `NuGet.BuiltOnce` | src/Microsoft.VisualStudio.ProjectSystem.Managed.VS/ProjectSystem/VS/NuGet/NuGetRestorer.cs:168-172 | after a built batch, a following batch without changes is not built |
| `NuGet.PendingHasCause` | src/Microsoft.VisualStudio.ProjectSystem.Managed.VS/ProjectSystem/VS/NuGet/NuGetRestorer.cs:174-176 | starting cleared, a set flag implies an earlier failed batch with changes and no build since |
| `NuGet.BuildHasCause` | src/Microsoft.VisualStudio.ProjectSystem.Managed.VS/ProjectSystem/VS/NuGet/NuGetRestorer.cs:168-176 | starting cleared, a batch without changes is built only to act on an earlier failed batch with changes not yet built |
| `TestScenarios.BuildTestExample` | src/Microsoft.VisualStudio.ProjectSystem.Managed.VS.UnitTests/ProjectSystem/VS/NuGet/ProjectRestoreInfoBuilderTests.cs:135-148 | the test's update, abbreviated to the properties and metadata the model keeps, builds one framework with base path `obj\`, 2 package and 1 project reference; found by position and moniker, an unknown moniker gives null |
| `TestScenarios.NoChangesReturnsNull` | src/Microsoft.VisualStudio.ProjectSystem.Managed.VS.UnitTests/ProjectSystem/VS/NuGet/ProjectRestoreInfoBuilderTests.cs:46-69 | the test's update with no changes, seen by the gate with a clear flag, gives null and leaves the flag clear |
| `TestScenarios.NoChangesBuildThrows` | src/Microsoft.VisualStudio.ProjectSystem.Managed.VS.UnitTests/ProjectSystem/VS/NuGet/ProjectRestoreInfoBuilderTests.cs:46-69 | `Build` on the test's update without changes throws for the missing base path property instead of returning null |
| `TestScenarios.DeferredChangeNominatedOnce` | src/Microsoft.VisualStudio.ProjectSystem.Managed.VS/ProjectSystem/VS/NuGet/NuGetRestorer.cs:168-176 | failed with changes, then two successful batches without changes: only the middle batch is built, and the flag ends cleared |

## Left out

- Dataflow subscription and relinking (`OnProjectFactoryCompletedAsync`,
  `OnProjectChangedAsync`, `ResetSubscriptions`, `LinkTo` / `SyncLinkTo`):
  these are host dataflow blocks. The multi-source version join and the
  suppression of version-only updates happen inside the host's
  `ProjectDataSources.SyncLinkTo`, which is not part of this model. Only the
  relink trigger `HasTargetFrameworkChanged` is modelled.
- `RefreshActiveConfigurationAsync`: it switches to the UI thread and calls a
  host service.
- Nomination dispatch (`ProjectPropertyChangedAsync`): an asynchronous call
  into NuGet, with fault-handler registration and performance markers. The
  model ends at the restore info (or null) that it would dispatch.
- The `OnceInitializedOnceDisposedAsync` lifecycle and the
  `IsDisposing` / `IsDisposed` guards: that base class is not part of this
  model.
- The older `NugetRestorer.cs` and the experimental `ScratchNugetRestorer.cs`
  and `AltNugetRestorer.cs` restorers. They call `Build` unconditionally or
  only trace, so they add no behaviour beyond what is modelled.
- The rule dictionary's case-insensitive key comparer. Rule keys are taken to
  be spelt exactly as the schema names, so the ordinal compares at
  NuGetRestorer.cs lines 182 and 190 and the indexers agree.
- The `Before` state of a rule, and the added/removed item sets of its
  difference: nothing in the modelled code reads them.
- The values of the generated rule-name and property-name constants (for
  example `CompilerCommandLineArgs.SchemaName`) are defined outside these
  files. They are taken to be the rule and property names themselves.
- `ItemLists.Lookup`: a position outside the list is excluded by a
  precondition rather than modelled as the `ArgumentOutOfRangeException` the
  list indexer throws. `default(T)` is modelled as null, which is what it is
  for the interface types stored in these lists.
- The `ItemList(IEnumerable<T>)` constructors and `List<T>.AddRange`:
  `GetReferences` is modelled as the pure projection it computes, not as the
  list calls that store it.
- The `GetKeyForItem` overrides in `TargetFrameworks.cs` and
  `ReferenceProperties.cs` override a member that `VsItemList` does not
  declare. The keys they name are the `GetName` keys modelled here.
