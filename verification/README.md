# Landscaper: validation, defaulting, media types and errors

A Dafny model of the parts of the Gardener Landscaper that decide whether a specification is acceptable, complete it
with defaults, name artifacts, merge values and track failures:

- **Deploy items** (`DependencyGraph`, `DependencySearch`, `DependencyAccounting`, `DependencyRepetition`,
  `DependencyArrangements`, `DeployItemValidation`). The depth-first search over `dependsOn`, with its one shared
  set of handled names and its path slice whose backing array sibling calls overwrite. `Slices` models Go slices
  (shared array, `append`), `StringSets` the mutable set.
- **Blueprint definitions** (`ConfigChecks`, `BlueprintDefinitions`, `BlueprintDefinitionLaws`, `BlueprintReports`,
  `BlueprintValidation`, `DefinitionDefaults`). The recursion over conditional imports with one name set, the export
  check, the reflective field checks on explicit field lists, and in-place defaulting.
- **Installation imports and exports** (`NamedLists`, `InstallationImports`, `InstallationImportLaws`,
  `InstallationReports`, `InstallationValidation`) and **their defaulting** (`InstallationDefaults`,
  `InstallationDefaultLaws`), where the import structs are copied but the references in them are shared pointers.
- **Sub-installation wiring** (`Wiring`, `WiringLaws`, `WiringProviders`, `WiringReports`, `WiringValidation`).
- **Media types** (`Strings`, `MediaTypes`, `MediaTypeRoundTrips`, `MediaTypeRecords`): legacy conversion, parser,
  printer, builder.
- **Map merging** (`MergeMaps`, `MergeLaws`) and **the last error** (`LastError`).

Code that the repository runs step by step is a method or a class here, proved equal to a function; the laws are
lemmas about these functions: when nothing is reported, and exactly what is reported otherwise. Errors carry their
kind and position, not their text; an issue of the wiring carries the reference it is about. Where the repository
ranges over a Go map, the method picks keys in any order, and the errors are equal up to their order.

`dafny verify dfyconfig.toml` checks the whole project.

## What the proofs found

- `Parse` stops with a slice-bounds run-time error exactly when a `+` precedes the only `/`
  (`MediaTypeRoundTrips.PanicsIff`); the model has an outcome for it.
- A layer type whose version is spelled `config` parses as a config type (`LayerGrammar`). Parsing, printing and
  parsing again gives the same record exactly for application types and types without `+` (`ParsePrintParseIff`);
  `text/ld+json` is printed as `text/ld+json+json` (`LinkedDataPrintedTwice`).
- The comment of `IsCompressed` says that an empty format only asks whether there is any compression. On every
  parsed type the code compares the suffix with the empty string instead (`AnyCompressionIff`, `BuiltLayer`).
- The comment of `targetListRef` allows only lists imported by the parent. The check does not tell such a reference
  from one to a single target (`ListReferenceLikeTarget`), and accepts one to a target that another template exports
  (`ExportSatisfiesListReference`). It leads to a list of the parent if and only if no template exports a target,
  and the parent imports no single target, of that name (`ListReferenceLeadsToListIff`).
- Imports are meant to be satisfied by the parent or by a sibling. A template that imports its own export is
  accepted, too (`OwnExportSatisfies`); parent or sibling provide a reference if and only if the importing template
  does not export it (`SiblingProvidesIff`).
- An export without a type never passes before defaulting, since the field check looks at top-level fields only
  (`UntypedExportRejected`); `DefaultKeepsExportVerdictIff` says exactly when defaulting changes the verdict.
- Several deploy items without a name are no duplicates for the cycle check, and only the first of them is looked at
  (`ShadowedItemIsNotExamined`). All entries of all items are looked at if and only if no item behind an earlier one
  of the same name has dependencies (`EveryEntryOnceIff`). The search theorems hold for every list, names standing
  for the first item that carries them.
- Handled names are kept to avoid reporting a cycle more than once. A repeated `dependsOn` entry can defeat this
  (`RepeatedCycle`), depending on the order of the items (`OrderMatters`): there is an order in which a cycle is
  reported twice if and only if a repeated entry lies on a cycle (`NoArrangementTwiceIff`). `NoCycleTwiceIff` says
  for one order which entries matter.
- Merging is associative except around a map, a leaf and a map at one path (`AssociativeIffNoConflict`).

## Model

| member | source | states |
|---|---|---|
| `DependencySearch.Coverage` | apis/core/validation/execution.go:46-56 | on every list, cyclic or not, the search ends with exactly the names of the list handled, and finishes each of them once |
| `DependencySearch.Soundness` | apis/core/validation/execution.go:78-112 | every reported cycle is one: not empty, different defined items, each depends on the next and the last on the first |
| `DependencySearch.Completeness` | apis/core/validation/execution.go:78-112 | if no cycle is reported, the order in which items are finished puts each item after everything it depends on |
| `DependencySearch.CyclesReportedIffCyclic` | apis/core/validation/execution.go:47-56 | no cycle is reported if and only if the graph has no closed walk, and if and only if a deployment order exists |
| `DependencySearch.VerdictDependsOnGraphOnly` | apis/core/validation/execution.go:47-112 | whether a cycle is reported depends neither on the order of the items nor on order or repetition inside `dependsOn` |
| `DependencySearch.TailIsCycle` | apis/core/validation/execution.go:128-140 | a dependency that is on the current path closes a simple cycle from it to the item that depends on it |
| `DependencyGraph.OrderImpliesAcyclic` | apis/core/types_execution.go:125-126 | an order in which items follow their dependencies excludes every cycle of dependencies |
| `DependencyGraph.Find` | apis/core/validation/execution.go:144-155 | the result is the first index with the name, or -1 and no item has it |
| `DependencyAccounting.EveryEntryOnce` | apis/core/validation/execution.go:90-110 | every `dependsOn` entry written under a name is looked at exactly once; the undefined references are exactly the entries without an item |
| `DependencyAccounting.EntriesExaminedOrShadowed` | apis/core/validation/execution.go:51-56 | on every list no entry is lost: the entries of all items are those looked at and those of items behind an earlier item of the same name, each as often as it is written |
| `DependencyAccounting.EveryEntryOnceIff` | apis/core/validation/execution.go:51-56 | the entries looked at are the entries of all items if and only if no item behind an earlier one of the same name has dependencies, which holds when names differ |
| `DependencyAccounting.ReportsBounded` | apis/core/validation/execution.go:51-65 | on every list, cycles and undefined references together are at most as many as `dependsOn` entries |
| `DependencyRepetition.ClosingEntries` | apis/core/validation/execution.go:90-95 | the entries that close the reported cycles are, in order, exactly the entries looked at whose target is defined and not finished before their source |
| `DependencyArrangements.NoArrangementTwiceIff` | apis/core/validation/execution.go:76-77 | whatever the order of the items, no cycle is reported twice, not even started at another of its items, if and only if no repeated `dependsOn` entry lies on a cycle of the graph |
| `DependencyArrangements.EveryOrderIsArrangement` | apis/core/validation/execution.go:141-155 | with distinct names every order of the items counts: lookups find the same items |
| `DependencyArrangements.FirstRepeatsTwice` | apis/core/validation/execution.go:90-95 | if a repeated entry lies on a cycle and its target is the first item, a cycle is reported twice |
| `DependencyRepetition.NoCycleTwiceIff` | apis/core/validation/execution.go:76-77 | for one order of the items: no cycle is reported twice if and only if no item depends twice on a defined item that is not finished before it |
| `DependencyArrangements.NoRepeatNoCycleTwice` | apis/core/validation/execution.go:76-77 | on every list in which no repeated entry lies on a cycle, no cycle is reported twice |
| `DependencyArrangements.RepeatedCycle` | apis/core/validation/execution.go:91-95 | an item that names itself twice has its cycle reported twice |
| `DependencyArrangements.OrderMatters` | apis/core/validation/execution.go:91-95 | two items whose cycle is reported once in one order and twice in the other |
| `DependencyAccounting.ShadowedItemIsNotExamined` | apis/core/validation/execution.go:36-46 | two items without a name for which the condition of `EveryEntryOnceIff` fails: no duplicate is found, and the dependency of the second is never looked at |
| `DeployItemValidation.GetDeployItemTemplateByName` | apis/core/validation/execution.go:144-155 | the lookup loop returns the first index with the name, or -1 |
| `DeployItemValidation.GetCycle` | apis/core/validation/execution.go:128-140 | returns a cycle if and only if the name is on the path, as a copy in an array of its own |
| `DeployItemValidation.GetCyclesAndUndefinedDependencies` | apis/core/validation/execution.go:78-112 | with a shared path buffer and a set changed in place, finds what the search on immutable paths finds; the caller's path is as before, and no returned cycle shares an array with anything older |
| `DeployItemValidation.FollowDependency` | apis/core/validation/execution.go:91-109 | one round of the loop over the dependencies: a cycle, an undefined reference, or what the recursive call finds |
| `DeployItemValidation.SearchItems` | apis/core/validation/execution.go:47-56 | the loop over all items gathers all cycles and undefined references, still unchanged when it is done |
| `DeployItemValidation.ReportFindings` | apis/core/validation/execution.go:57-64 | one error per cycle and one per undefined reference, the latter at the item it comes from |
| `DeployItemValidation.ValidateDeployItemTemplate` | apis/core/validation/execution.go:158-177 | reports missing name, type, target name and namespace, and the label errors, and nothing else |
| `DeployItemValidation.ValidateDeployItemTemplateList` | apis/core/validation/execution.go:30-67 | reports errors of single items and duplicate names, and the findings of the search only if there are no duplicates |
| `DeployItemValidation.AcceptedIff` | apis/core/validation/execution.go:30-67 | a list is accepted if and only if every item is in order, names differ, every dependency is defined, and a deployment order exists |
| `DeployItemValidation.ItemErrorsDue` | apis/core/validation/execution.go:36-45 | every error about an item (repeated name, missing name, type, target name or namespace, labels) is reported exactly as often as it is due |
| `DeployItemValidation.FindingsReported` | apis/core/validation/execution.go:47-64 | with two items of one name nothing more is reported; otherwise one error follows for every cycle that is found and one for every undefined reference, at the first item with the name of its source |
| `Slices.Append` | apis/core/validation/execution.go:90 | the old slice reads as before, the new one has the element added; they share the array, or the new one has a fresh array and the old array is untouched |
| `StringSets.StringSet.UnsortedList` | apis/core/validation/execution.go:55 | lists every element of the set once, so inserting the list of a set into that set changes nothing |
| `BlueprintValidation.ValidateBlueprintImportDefinitions` | apis/core/validation/blueprint.go:57-105 | the recursion over one mutable name set reports, up to order, the errors of the functional check, and returns the same set with the same names |
| `BlueprintValidation.ValidateImportDefinition` | apis/core/validation/blueprint.go:60-102 | one definition with its conditional imports; re-inserting the returned names changes nothing |
| `BlueprintValidation.ValidateImportConfig` | apis/core/validation/blueprint.go:70-88 | the typed and the untyped check of the configured fields |
| `BlueprintValidation.ValidateImports` | apis/core/validation/blueprint.go:51-54 | the check of a whole tree starts without names |
| `BlueprintDefinitionLaws.TreeNames` | apis/core/validation/blueprint.go:57-105 | started with a set of names, the check ends with it and all non-empty names of the tree, and reports as many duplicates as there are names less the different new ones |
| `BlueprintDefinitionLaws.NoDuplicatesIff` | apis/core/validation/blueprint.go:51-68 | no duplicate is reported if and only if all non-empty names at all depths differ |
| `BlueprintDefinitionLaws.ImportsAcceptedIff` | apis/core/validation/blueprint.go:51-105 | a tree is accepted if and only if every definition at every depth has a fitting configuration, a name, and no conditional imports when required, and all names differ |
| `BlueprintDefinitionLaws.ConfigOkIff` | apis/core/validation/helper.go:17-23 | by type: data needs a schema only, targets and target lists a target type only, descriptors neither, untyped definitions exactly one |
| `BlueprintReports.ComplaintsExact` | apis/core/validation/blueprint.go:57-105 | every complaint that is due about a definition at a position of the tree is made exactly once, and no other is: missing or unexpected fields by type, neither or both, unknown type, missing name, conditional imports of a required import, and a name that comes before in the tree |
| `BlueprintReports.ExportComplaintsExact` | apis/core/validation/blueprint.go:108-143 | the same for export definitions |
| `BlueprintReports.ImportTable` | apis/core/validation/helper.go:17-23 | the table by the names of the types and fields |
| `BlueprintReports.ExportTable` | apis/core/validation/helper.go:24-27 | the table by the names of the types and fields |
| `BlueprintDefinitionLaws.DefaultKeepsVerdict` | apis/core/v1alpha1/defaults.go:30-57 | for every tree and every set of names, validation gives the same errors at the same positions and the same names before and after defaulting |
| `BlueprintDefinitionLaws.DefaultKeepsComplaints` | apis/core/v1alpha1/defaults.go:30-57 | defaulting changes nothing about what is wrong with a single import definition |
| `BlueprintDefinitionLaws.DefaultImportsTwice` | apis/core/v1alpha1/defaults.go:30-57 | defaulting a tree of imports twice is defaulting it once |
| `BlueprintDefinitionLaws.DefaultedImportParts` | apis/core/v1alpha1/defaults.go:34-56 | what becomes of every part: a missing type is inferred from the one field that is set, a target type without a domain gets `landscaper.gardener.cloud/` in front where it belongs to a target, and nothing else but the required flag changes |
| `BlueprintDefinitionLaws.RequiredEverywhere` | apis/core/v1alpha1/defaults.go:36-39 | after defaulting every definition at every depth says whether it is required |
| `BlueprintDefinitionLaws.DefaultExportTwice` | apis/core/v1alpha1/defaults.go:60-83 | defaulting an export twice is defaulting it once |
| `BlueprintDefinitionLaws.DefaultedExportParts` | apis/core/v1alpha1/defaults.go:64-82 | the same for exports |
| `BlueprintDefinitionLaws.UntypedExportRejected` | apis/core/validation/blueprint.go:135-138 | an export without a type fails its config check whatever its fields are |
| `BlueprintDefinitionLaws.DefaultedExportPassesIff` | apis/core/v1alpha1/defaults.go:64-82 | an export written without a type passes after defaulting if and only if exactly one of schema and target type was given |
| `BlueprintDefinitionLaws.DefaultKeepsExportVerdictIff` | apis/core/v1alpha1/defaults.go:60-83 | defaulting keeps the verdict on an export if and only if it has a type, or both or neither of schema and target type |
| `BlueprintDefinitionLaws.ExportsAcceptedIff` | apis/core/validation/blueprint.go:108-143 | exports are accepted if and only if every name is given and new and every configuration fits |
| `BlueprintDefinitionLaws.ExportConfigOkIff` | apis/core/validation/blueprint.go:125-138 | an export passes its config check if and only if it is typed as data with a schema only, or as target with a target type only |
| `BlueprintValidation.ValidateBlueprintExportDefinitions` | apis/core/validation/blueprint.go:108-143 | the loop reports, up to order, the errors of every export |
| `BlueprintValidation.ValidateExport` | apis/core/validation/blueprint.go:112-140 | one export against the names before it; its name, even an empty one, is entered |
| `ConfigChecks.ValidateMutuallyExclusiveConfig` | apis/core/validation/blueprint.go:149-186 | in whatever order the fields are visited, each expected field that is missing and each unexpected field that is set is reported once |
| `ConfigChecks.ComputeRelevantConfigFields` | apis/core/validation/helper.go:52-65 | the union of both tables is schema and target type |
| `ConfigChecks.AddConfigFields` | apis/core/validation/helper.go:54-58 | in whatever order the table is visited, exactly the fields it mentions are added |
| `ConfigChecks.ValidateExactlyOneOf` | apis/core/validation/helper.go:80-110 | tells apart none, one and several of the named top-level fields being set |
| `ConfigChecks.ExactlyOneIff` | apis/core/validation/helper.go:77-79 | the check passes if and only if there is one named field that is set and no other |
| `DefinitionDefaults.SetDefaultsDefinitionImport` | apis/core/v1alpha1/defaults.go:30-57 | writing through pointers, also where lists of conditional imports share their definitions, defaults every definition at every depth; seen as values the trees are the defaulted trees |
| `DefinitionDefaults.SetDefaultsNode` | apis/core/v1alpha1/defaults.go:34-56 | one definition and everything below it: required first, then the conditional imports, then type and target type |
| `DefinitionDefaults.ValuesDefaulted` | apis/core/v1alpha1/defaults.go:34-56 | trees all of whose definitions are defaulted one by one are the defaulted trees, however they share definitions |
| `DefinitionDefaults.SetDefaultsDefinitionExport` | apis/core/v1alpha1/defaults.go:60-83 | every element of the array becomes its defaulted form |
| `InstallationValidation.ValidateInstallationImports` | apis/core/validation/installation.go:87-100 | three loops over one mutable name set report exactly the issues of the three lists, in order |
| `InstallationValidation.ValidateInstallationDataImports` | apis/core/validation/installation.go:103-130 | the loop reports the issues of every data import and returns the names with its own added, nameless imports skipped |
| `InstallationValidation.ValidateInstallationTargetImports` | apis/core/validation/installation.go:133-156 | the same for target imports, where an empty name takes part |
| `InstallationValidation.ValidateInstallationComponentDescriptorImports` | apis/core/validation/installation.go:159-199 | the same for component descriptor imports and the elements of their lists |
| `InstallationValidation.ValidateInstallationExports` | apis/core/validation/installation.go:202-253 | reports the issues of both export lists, each with a name map of its own |
| `InstallationValidation.ValidateObjectReference` | apis/core/validation/installation.go:256-267 | a missing name and a missing namespace, each reported |
| `InstallationImportLaws.ImportsAcceptedIff` | apis/core/validation/installation.go:87-199 | accepted if and only if every import has exactly one source and complete references, list elements included, and all names across the three lists are given and differ |
| `InstallationReports.ImportIssuesExact` | apis/core/validation/installation.go:87-199 | every fault of an import is reported exactly once at its place, and nothing else is: no or several sources, incomplete references by field, empty targets, forbidden data references, faults inside lists, missing names, and names repeated within or across the lists |
| `InstallationImportLaws.ExportsAcceptedIff` | apis/core/validation/installation.go:202-253 | exports are accepted if and only if names and references are given and the names within each list differ |
| `InstallationReports.ExportIssuesExact` | apis/core/validation/installation.go:202-253 | the same for exports |
| `InstallationImportLaws.TemplateImportsAcceptedIff` | apis/core/validation/blueprint.go:444-527 | template imports are accepted if and only if each uses only the sources allowed in a template and all names are given and differ |
| `InstallationReports.TemplateImportIssuesExact` | apis/core/validation/blueprint.go:444-527 | the same for the imports of a template, with the sources that are forbidden there |
| `InstallationValidation.ValidateInstallationTemplateImports` | apis/core/validation/blueprint.go:444-457 | reports exactly the issues of the template's import lists, in order, over one name set |
| `InstallationValidation.ValidateInstallationTemplateDataImports` | apis/core/validation/blueprint.go:460-488 | the loop over a template's data imports |
| `InstallationValidation.ValidateInstallationTemplateComponentDescriptorImports` | apis/core/validation/blueprint.go:491-527 | the loop over a template's component descriptor imports |
| `NamedLists.NothingFoundIff` | apis/core/validation/installation.go:103-130 | a list checked against a growing set of names is clean if and only if its entries are and its names are given, new and different |
| `InstallationDefaults.SetDefaultsInstallation` | apis/core/v1alpha1/defaults.go:86-149 | however references are shared: a given namespace or repository context stays, a missing one becomes that of the installation or of its component reference, a missing context becomes `default`, and nothing else changes; seen as values the imports are the defaulted imports |
| `InstallationDefaults.DefaultDataImports` | apis/core/v1alpha1/defaults.go:94-105 | the loop works on copied structs, yet every reference behind them is defaulted |
| `InstallationDefaults.DefaultDescriptorImports` | apis/core/v1alpha1/defaults.go:106-148 | the same for descriptor imports and the elements of their lists, reading the base repository context again in every round |
| `InstallationDefaults.ImportsValueDefaulted` | apis/core/v1alpha1/defaults.go:94-148 | defaulting what the pointers lead to is defaulting the imports as values |
| `InstallationDefaults.EverythingReached` | apis/core/v1alpha1/defaults.go:94-148 | every reference in any import or list element is among those defaulted |
| `InstallationDefaultLaws.DefaultedTwice` | apis/core/v1alpha1/defaults.go:86-149 | a second run changes nothing |
| `InstallationDefaultLaws.DefaultingSettlesNamespaces` | apis/core/validation/installation.go:103-199 | with a namespace to default to, validation afterwards reports exactly what it reported before, less the missing namespaces |
| `InstallationDefaultLaws.NoneAboutNamespaces` | apis/core/validation/installation.go:256-267 | no issue about a missing namespace is left, not even inside a list |
| `WiringValidation.ValidateInstallationTemplates` | apis/core/validation/blueprint.go:253-397 | one pass that grows the sets of exports and names, and a final look at all imports, report exactly the issues of the wiring, in order |
| `WiringValidation.CollectParentImports` | apis/core/validation/blueprint.go:268-287 | the three sets of names the parent provides, by type or, without one, by schema and target type; top-level imports only |
| `WiringValidation.EnterExports` | apis/core/validation/blueprint.go:314-323 | an export is reported if exported before, and if the parent imports it |
| `WiringValidation.CollectTargetRefs` | apis/core/validation/blueprint.go:340-361 | collects the first source of every target import |
| `WiringValidation.CollectDescriptorRefs` | apis/core/validation/blueprint.go:362-382 | collects data reference or list references of every descriptor import |
| `WiringValidation.ValidateSatisfiedImports` | apis/core/validation/blueprint.go:406-414 | exactly the references that neither an export nor the parent provides are reported |
| `WiringValidation.ValidateTemplate` | apis/core/validation/blueprint.go:417-441 | name, length, blueprint, imports and exports of one template |
| `WiringLaws.WiringAcceptedIff` | apis/core/validation/blueprint.go:253-397 | templates are accepted if and only if each is in order, names differ, exports of a kind differ from each other and from the parent's imports, and every collected reference is provided |
| `WiringReports.WiringIssuesExact` | apis/core/validation/blueprint.go:253-397 | every issue is reported exactly as often as it is due: for each further export entry of a reference, each export entry of something the parent imports, each import that nothing provides, each further template of a name, and each fault of a template by itself |
| `WiringProviders.KindsByType` | apis/core/validation/blueprint.go:268-287 | which kind a definition provides, by the names of the types or by the fields of an untyped one; others provide nothing |
| `WiringProviders.FittingProvides` | apis/core/validation/blueprint.go:268-287 | a definition with a fitting configuration provides exactly the one kind its fields give away |
| `WiringProviders.AcceptedParent` | apis/core/validation/blueprint.go:268-287 | an accepted blueprint provides exactly its top-level imports, each as one kind |
| `WiringProviders.ExportEntries` | apis/core/validation/blueprint.go:314-339 | the references that count as exported are those written in the export entries, one by one |
| `WiringProviders.WrittenTargetsIff` | apis/core/types_installation.go:173-190 | which references a target import writes |
| `WiringProviders.WrittenDescriptorsIff` | apis/core/validation/blueprint.go:362-382 | which references a descriptor import writes, those of its list included |
| `WiringProviders.FirstSourceCollected` | apis/core/validation/blueprint.go:340-361 | of several sources of a target import the first alone is collected |
| `WiringProviders.UniqueProvider` | apis/core/validation/blueprint.go:391-394 | if accepted, every reference written in any template has exactly one provider among parent imports and export entries; descriptor references resolve to the parent |
| `WiringProviders.OneDefinitionOrEntry` | apis/core/validation/blueprint.go:44-48 | in an accepted blueprint the provider is exactly one definition at the top of the import tree or exactly one export entry, counted entry by entry |
| `WiringProviders.SiblingProvidesIff` | apis/core/validation/blueprint.go:391-394 | a reference comes from the parent or from an entry of another template if and only if the template that imports it does not export it itself |
| `WiringProviders.ProviderPlace` | apis/core/validation/blueprint.go:314-394 | a reference the parent does not import stands in exactly one export entry of exactly one template, and one the parent imports in none |
| `WiringProviders.CollectsAllTargets` | apis/core/validation/blueprint.go:342-360 | the exactly-one-of check makes the else-if collection complete: no written target reference is missed |
| `WiringProviders.CollectsAllDescriptors` | apis/core/validation/blueprint.go:364-381 | the same for descriptor references |
| `WiringProviders.ListReferenceLikeTarget` | apis/core/types_installation.go:187-190 | a target list reference passes and is collected exactly like a reference to a single target |
| `WiringProviders.ListReferenceLeadsToListIff` | apis/core/types_installation.go:187-190 | in accepted wiring, parent import names differing, a target list reference leads to a target list of the parent if and only if no template exports a target and the parent imports no single target of that name |
| `WiringProviders.ExportSatisfiesListReference` | apis/core/types_installation.go:187-190 | accepted wiring in which a target list reference is satisfied by a target that another template exports |
| `WiringProviders.OwnExportSatisfies` | apis/core/validation/blueprint.go:391-394 | accepted wiring in which a template imports what it exports itself |
| `MediaTypes.Parse` | apis/mediatype/mediatype.go:115-164 | applies the given conversions and the default one in turn, stops at the first that fails, and parses the result |
| `MediaTypes.ParseConverted` | apis/mediatype/mediatype.go:126-163 | the parser behind the conversions, with its run-time error as an outcome |
| `MediaTypes.DetectFormat` | apis/mediatype/mediatype.go:149-161 | config shape before layer shape, by the position of the marker from the end |
| `MediaTypes.Builder.constructor` | apis/mediatype/mediatype.go:172-183 | starts with the type and nothing else |
| `MediaTypes.Builder.Compression` | apis/mediatype/mediatype.go:186-190 | sets compression and suffix and returns the same builder |
| `MediaTypes.Builder.FileFormat` | apis/mediatype/mediatype.go:194-198 | sets file format and suffix and returns the same builder |
| `MediaTypes.Builder.IsConfigType` | apis/mediatype/mediatype.go:201-204 | changes the format only |
| `MediaTypes.Builder.IsLayerType` | apis/mediatype/mediatype.go:207-210 | changes the format only |
| `MediaTypes.Builder.String` | apis/mediatype/mediatype.go:218-220 | prints what was built |
| `MediaTypeRoundTrips.PanicsIff` | apis/mediatype/mediatype.go:115-141 | with the default conversion, parsing stops with a run-time error if and only if the text has one slash and a plus sign before it |
| `MediaTypeRoundTrips.ConversionKeepsPanics` | apis/mediatype/constants.go:47-55 | the default conversion neither causes nor prevents that error |
| `MediaTypeRoundTrips.PrintOfParse` | apis/mediatype/mediatype.go:49-58 | printing an accepted type gives it back if and only if it is an application type or has no plus sign |
| `MediaTypeRoundTrips.ParsePrintParseIff` | apis/mediatype/mediatype.go:115-164 | legacy or not: the print is the converted input, and parses into the same record, if and only if the converted input is an application type or has no plus sign |
| `MediaTypeRoundTrips.ForeignSuffixPrintedTwice` | apis/mediatype/mediatype.go:143-147 | outside `application` a suffix is printed twice and the print parses into another record; `text/ld+json` is one case |
| `MediaTypeRoundTrips.LinkedDataPrintedTwice` | apis/mediatype/mediatype.go:143-147 | `text/ld+json` is printed as `text/ld+json+json`, which parses into another record |
| `MediaTypeRoundTrips.DefaultConversionOnce` | apis/mediatype/constants.go:47-55 | the default conversion never fails, and its result is not converted again |
| `MediaTypeRoundTrips.LegacyConversions` | apis/mediatype/constants.go:47-55 | what the two legacy types are converted to, letter by letter, and that no other text is converted |
| `MediaTypeRecords.LegacyBlueprintRecord` | apis/mediatype/constants.go:18-28 | the legacy blueprint type parses as the compressed blueprint layer, with all its parts |
| `MediaTypeRecords.LegacySchemaRecord` | apis/mediatype/constants.go:33-37 | the legacy schema type parses as the schema layer, with all its parts |
| `MediaTypeRecords.ConversionStep` | apis/mediatype/mediatype.go:115-124 | given conversions take their turn from first to last before the default one, and the first that fails ends parsing |
| `MediaTypeRecords.InvalidIff` | apis/mediatype/mediatype.go:126-129 | a text is rejected as no media type if and only if it does not contain one single slash |
| `MediaTypeRecords.ForeignRecord` | apis/mediatype/mediatype.go:143-147 | the full record of a type outside `application` |
| `MediaTypeRecords.PlainRecord` | apis/mediatype/mediatype.go:149-163 | the full record of an application type of neither shape |
| `MediaTypeRecords.CompressionPrinted` | apis/mediatype/mediatype.go:49-58 | a compression given without a suffix is printed like one |
| `MediaTypeRoundTrips.LayerGrammar` | apis/mediatype/mediatype.go:108-109 | a type written after the layer grammar parses into exactly its parts, or as config if its version is spelled so |
| `MediaTypeRoundTrips.ConfigGrammar` | apis/mediatype/mediatype.go:106-107 | a type written after the config grammar parses into exactly its parts |
| `MediaTypeRoundTrips.ShapeIsNotLegacy` | apis/mediatype/constants.go:18-33 | no type of layer or config shape is one of the legacy types |
| `MediaTypeRoundTrips.LayerRecognizedIff` | apis/mediatype/mediatype.go:157-161 | the parser reports a layer if and only if the text is spelled after the layer grammar with a version other than `config` |
| `MediaTypeRoundTrips.ConfigRecognizedIff` | apis/mediatype/mediatype.go:153-156 | the parser reports a config if and only if the text is spelled after the config grammar |
| `MediaTypeRoundTrips.AnyCompressionIff` | apis/mediatype/mediatype.go:72-82 | for every accepted input, the question for any compression is answered by yes if and only if the suffix is given and empty |
| `MediaTypeRoundTrips.BuiltLayer` | apis/mediatype/mediatype.go:186-210 | a printed layer, compressed or not, parses into what was built, with version and file format found and the compression in the suffix only; by name the compression is recognized as before, the question for any compression misses it |
| `MediaTypeRoundTrips.BuiltConfig` | apis/mediatype/mediatype.go:194-204 | a printed config parses into what was built, with the version found |
| `Strings.JoinOfSplit` | apis/mediatype/mediatype.go:126 | splitting loses nothing, and no part contains the separator |
| `Strings.SplitOfJoin` | apis/mediatype/mediatype.go:150 | splitting recovers exactly the parts that were joined |
| `MergeMaps.MergeMaps` | pkg/utils/miscellaneous.go:20-52 | two loops over the keys in any order, and recursion, build the recursive merge; a nil map reads as empty |
| `MergeLaws.MergeAtPath` | pkg/utils/miscellaneous.go:20-52 | what the merge holds at every path, in terms of both maps at that path and of leaves of the second map on the way |
| `MergeLaws.LeavesOfMerge` | pkg/utils/miscellaneous.go:18-19 | every leaf of the second map stays; a leaf of the first survives if and only if the second has nothing there and no leaf on the way; there is no other leaf |
| `MergeLaws.MergeWithItself` | pkg/utils/miscellaneous.go:29-49 | merging a map with itself changes nothing |
| `MergeLaws.NilIsNeutral` | pkg/utils/miscellaneous.go:21-26 | a nil map is neutral on both sides, and only two nil maps merge into one |
| `MergeLaws.MergedIsCovered` | pkg/utils/miscellaneous.go:29-49 | merging the second map again changes nothing |
| `MergeLaws.CoveredIff` | pkg/utils/miscellaneous.go:29-49 | merging into a map yields the second map if and only if the second has an entry for every entry of the first, recursively |
| `MergeLaws.AssociativeIff` | pkg/utils/miscellaneous.go:29-49 | merging three maps is associative if and only if they are associable, entry by entry |
| `MergeLaws.AssociativeIffNoConflict` | pkg/utils/miscellaneous.go:29-49 | the same by paths: if and only if no path is a map, a leaf, and a map that does not cover the first |
| `MergeLaws.AssociativeWhenKindsAgree` | pkg/utils/miscellaneous.go:29-49 | associative whenever the first two maps agree on what is a map |
| `MergeLaws.NotAssociative` | pkg/utils/miscellaneous.go:33-42 | three maps for which the two ways of merging differ |
| `LastError.IsErrorIsOutermost` | apis/errors/error.go:98-112 | what is found is the outermost landscaper error among the error and all it wraps; nothing is found if and only if none of them is one |
| `LastError.UpdatedError` | apis/errors/error.go:126-140 | a new record that keeps the transition time exactly for the same operation |
| `LastError.TryUpdateError` | apis/errors/error.go:115-123 | no error and foreign errors clear the record |
| `LastError.ContainsAnyErrorCode` | apis/errors/error.go:164-171 | true if and only if a code is in both lists |
| `LastError.HasErrorCode` | apis/errors/error.go:174-181 | true if and only if the code is in the list |
| `LastError.GetPhaseForLastError` | apis/errors/error.go:144-161 | the phase after an error, by its codes and its duration |
| `LastError.RecordOfLast` | apis/errors/error.go:126-140 | after any run, there is a record if and only if the last event failed with a landscaper error, and it shows the operation, reason, message and codes of that error and its time |
| `LastError.StreakInvariant` | apis/errors/error.go:136-138 | after any run, the transition time is the time at which the current unbroken run of failures of one operation began |
| `LastError.TransitionBeforeUpdate` | apis/errors/error.go:131-132 | under a clock that does not run backwards, the transition time is never after the update time |
| `LastError.FailedIff` | apis/errors/error.go:144-161 | after any run, the phase is failed if and only if it was, or the last event failed with a landscaper error and there was no phase yet, it has one of the four unrecoverable codes, or the current run lasts longer than allowed; otherwise it stays |
| `LastError.FailedUntilRunBreaks` | apis/errors/error.go:142-161 | once the run lasts too long, every further failure of the same operation keeps the object failed |
| `LastError.RunBreaks` | apis/errors/error.go:136-139 | any other event clears the record or starts the duration over |

## Left out

- Error texts and `field.Path` strings: the model keeps the kind of an error and the position it is about.
- Label checks and DNS label checks: the number of their messages is a parameter (`labelErrors`, `nameMessages`).
- Object metadata, registry pull secrets, blueprint and component descriptor definitions of installations, template executors, sub-installation files and inline templates: flat checks.
- DefinitionDefaults.SetDefaultsDefinitionImport: requires that no definition is among its own conditional imports; on such a cycle of slices the source recurses without end.
- Fields no modelled code reads (type meta, default values, descriptions, deploy item configuration, versions and keys of references) are not in the datatypes.
- Reflection: the field checks work on explicit lists of the top-level fields they can see; a nil struct pointer as input is not modelled.
- Loop bodies with several steps are methods of their own (`FollowDependency`, `ValidateImportDefinition`, `ValidateNextTemplate`, `DefaultDescriptorImport`, and others); the order of the steps is that of the source, except that complaints about one definition may be gathered before they are added to the list.
- BlueprintValidation.ValidateBlueprintImportDefinitions: states errors up to their order, since the source visits the relevant fields in the order of a Go map.
- BlueprintValidation.ValidateBlueprintExportDefinitions: states errors up to their order, for the same reason.
- InstallationDefaults.SetDefaultsInstallation: repository contexts are opaque texts that are copied; sharing of the context object itself is not modelled.
- MediaTypes.Parse: user-supplied conversions are pure functions; a conversion that has effects, and the write of `append` into spare room behind the caller's slice, are not modelled. Strings are sequences of characters, so length limits count characters, not bytes.
- MergeMaps.MergeMaps: maps are values, so that the result shares sub-maps with its inputs is not captured; leaves are of one type.
- LastError.GetPhaseForLastError: durations are exact integers; rounding to floating-point seconds, saturation of time differences, and the loss of sub-seconds when a record is stored are not modelled. An error value that is a nil pointer in a non-nil interface is not modelled either.
- Conditional imports take part in the import check only; the source does not let them provide anything to sub-installations, and neither does the model. A component descriptor reference (`ref`) in a template is checked by neither.
- JSON marshalling, deep copies, conversion between API versions, configuration defaults, file-system helpers, controllers, agents and commands.
