/**
 The validation of installation imports and exports as it is performed: loops over the lists, with one set of
 names that the import lists share.
 */
module InstallationValidation {
  import opened Basics
  import opened StringSets
  import opened ConfigChecks
  import opened NamedLists
  import opened InstallationImports

  method ValidateObjectReference(or: ObjectReference, field: ReferenceField) returns (problems: seq<Problem>)
    ensures problems == ReferenceProblems(Some(or), field)
  {
    problems := [];
    if or.name == "" {
      problems := problems + [ReferenceNameRequired(field)];
    }
    if or.namespace == "" {
      problems := problems + [ReferenceNamespaceRequired(field)];
    }
  }

  method ValidateOptionalReference(or: Option<ObjectReference>, field: ReferenceField) returns (problems: seq<Problem>)
    ensures problems == ReferenceProblems(or, field)
  {
    problems := [];
    if or.Some? {
      problems := ValidateObjectReference(or.value, field);
    }
  }

  method ValidateOneSource(fields: seq<Field>, configs: seq<string>) returns (problems: seq<Problem>)
    ensures problems == OneSourceProblems(fields, configs)
  {
    var verdict := ValidateExactlyOneOf(fields, configs);
    problems := [];
    if verdict != ExactlyOne {
      problems := [NotExactlyOneSource(verdict)];
    }
  }

  /** The end of every round: the name is looked up and entered. */
  method EnterName(section: Section, ghost entries: seq<Entry>, i: nat, ghost seen: set<string>, entry: Entry,
                   names: StringSet)
    returns (issues: seq<Issue>)
    requires i < |entries| && entries[i] == entry && names.elems == SeenBefore(entries, i, seen)
    modifies names
    ensures names.elems == SeenBefore(entries, i + 1, seen)
    ensures issues == ListIssues(section, entries, seen)[i]
  {
    SeenStep(entries, i, seen);
    var problems := entry.problems;
    if entry.counted {
      if names.Has(entry.name) {
        problems := problems + [DuplicateName];
      }
      names.Insert(entry.name);
    }
    assert problems == EntryProblems(entry, old(names.elems));
    issues := Issues(section, i, problems);
  }

  method ValidateInstallationDataImports(imports: seq<DataImport>, importNames: StringSet)
    returns (allErrs: seq<Issue>, names: StringSet)
    modifies importNames
    ensures names == importNames && names.elems == SeenAfter(DataEntries(imports), old(importNames.elems))
    ensures allErrs == ListCheck(DataImports, DataEntries(imports), old(importNames.elems))
  {
    allErrs, names := [], importNames;
    ghost var entries, seen := DataEntries(imports), importNames.elems;
    ghost var parts := ListIssues(DataImports, entries, seen);
    for i := 0 to |imports|
      invariant names.elems == SeenBefore(entries, i, seen)
      invariant allErrs == ConcatAll(parts[..i])
    {
      var imp := imports[i];
      var problems := ValidateOneSource(DataFields(imp), DATA_SOURCES);
      var secret := ValidateOptionalReference(imp.secretRef, SecretRef);
      var configMap := ValidateOptionalReference(imp.configMapRef, ConfigMapRef);
      problems := problems + secret + configMap;
      if imp.name == "" {
        problems := problems + [NameRequired];
      }
      var issues := EnterName(DataImports, entries, i, seen, Entry(imp.name, problems, imp.name != ""), importNames);
      ConcatAllStep(parts, i);
      allErrs := allErrs + issues;
    }
    assert parts[..|imports|] == parts;
  }

  method ValidateTargets(targets: seq<string>) returns (problems: seq<Problem>)
    ensures problems == EmptyTargets(targets, |targets|)
  {
    problems := [];
    for i := 0 to |targets|
      invariant problems == EmptyTargets(targets, i)
    {
      if |targets[i]| == 0 {
        problems := problems + [EmptyTarget(i)];
      }
    }
  }

  method ValidateInstallationTargetImports(imports: seq<TargetImport>, importNames: StringSet)
    returns (allErrs: seq<Issue>, names: StringSet)
    modifies importNames
    ensures names == importNames && names.elems == SeenAfter(TargetEntries(imports), old(importNames.elems))
    ensures allErrs == ListCheck(TargetImports, TargetEntries(imports), old(importNames.elems))
  {
    allErrs, names := [], importNames;
    ghost var entries, seen := TargetEntries(imports), importNames.elems;
    ghost var parts := ListIssues(TargetImports, entries, seen);
    for i := 0 to |imports|
      invariant names.elems == SeenBefore(entries, i, seen)
      invariant allErrs == ConcatAll(parts[..i])
    {
      var imp := imports[i];
      var problems := When(imp.name == "", NameRequired);
      var source := ValidateOneSource(TargetFields(imp), TARGET_SOURCES);
      problems := problems + source;
      if imp.targets.Some? {
        var empty := ValidateTargets(imp.targets.value);
        problems := problems + empty;
      }
      var issues := EnterName(TargetImports, entries, i, seen, Entry(imp.name, problems, true), importNames);
      ConcatAllStep(parts, i);
      allErrs := allErrs + issues;
    }
    assert parts[..|imports|] == parts;
  }

  method ValidateElement(cd: DescriptorData) returns (problems: seq<Problem>)
    ensures problems == ElementProblems(cd)
  {
    var source := ValidateOneSource(DescriptorDataFields(cd), ELEMENT_SOURCES);
    var configMap := ValidateOptionalReference(cd.configMapRef, ConfigMapRef);
    var secret := ValidateOptionalReference(cd.secretRef, SecretRef);
    problems := source + configMap + secret;
    if |cd.dataRef| != 0 {
      problems := problems + [DataRefForbidden];
    }
  }

  method ValidateDescriptorList(list: seq<DescriptorData>) returns (problems: seq<Problem>)
    ensures problems == ElementsProblems(list)
  {
    problems := [];
    ghost var parts := EachElement(list);
    for i := 0 to |list|
      invariant problems == Nested(parts, i)
    {
      var found := ValidateElement(list[i]);
      problems := problems + Inside(i, found);
    }
  }

  method ValidateDescriptorImport(imp: DescriptorImport) returns (problems: seq<Problem>)
    ensures problems == DescriptorProblems(imp)
  {
    var source := ValidateOneSource(DescriptorFields(imp), DESCRIPTOR_SOURCES);
    var configMap := ValidateOptionalReference(imp.configMapRef, ConfigMapRef);
    var secret := ValidateOptionalReference(imp.secretRef, SecretRef);
    var dataRef, inside: seq<Problem> := [], [];
    if |imp.dataRef| != 0 {
      dataRef := [DataRefForbidden];
    }
    if imp.list.Some? {
      inside := ValidateDescriptorList(imp.list.value);
    }
    problems := When(imp.name == "", NameRequired) + source + configMap + secret + dataRef + inside;
  }

  method ValidateInstallationComponentDescriptorImports(imports: seq<DescriptorImport>, importNames: StringSet)
    returns (allErrs: seq<Issue>, names: StringSet)
    modifies importNames
    ensures names == importNames && names.elems == SeenAfter(DescriptorEntries(imports), old(importNames.elems))
    ensures allErrs == ListCheck(DescriptorImports, DescriptorEntries(imports), old(importNames.elems))
  {
    allErrs, names := [], importNames;
    ghost var entries, seen := DescriptorEntries(imports), importNames.elems;
    ghost var parts := ListIssues(DescriptorImports, entries, seen);
    for i := 0 to |imports|
      invariant names.elems == SeenBefore(entries, i, seen)
      invariant allErrs == ConcatAll(parts[..i])
    {
      var problems := ValidateDescriptorImport(imports[i]);
      var issues := EnterName(DescriptorImports, entries, i, seen, Entry(imports[i].name, problems, true), importNames);
      ConcatAllStep(parts, i);
      allErrs := allErrs + issues;
    }
    assert parts[..|imports|] == parts;
  }

  method ValidateInstallationImports(imports: Imports) returns (allErrs: seq<Issue>)
    ensures allErrs == ImportIssues(imports)
  {
    var importNames := new StringSet();
    allErrs, importNames := ValidateInstallationDataImports(imports.data, importNames);
    var tmpErrs;
    tmpErrs, importNames := ValidateInstallationTargetImports(imports.targets, importNames);
    allErrs := allErrs + tmpErrs;
    var rest;
    tmpErrs, rest := ValidateInstallationComponentDescriptorImports(imports.componentDescriptors, importNames);
    allErrs := allErrs + tmpErrs;
  }

  // ---------- Templates ----------

  method ValidateTemplateDataImport(imp: DataImport) returns (problems: seq<Problem>)
    ensures problems == TemplateDataProblems(imp)
  {
    problems := [];
    if imp.dataRef == "" {
      problems := problems + [DataRefRequired];
    }
    if imp.secretRef.Some? {
      problems := problems + [SecretForbidden];
    }
    if imp.configMapRef.Some? {
      problems := problems + [ConfigMapForbidden];
    }
    if imp.name == "" {
      problems := problems + [NameRequired];
    }
  }

  method ValidateInstallationTemplateDataImports(imports: seq<DataImport>, importNames: StringSet)
    returns (allErrs: seq<Issue>, names: StringSet)
    modifies importNames
    ensures names == importNames && names.elems == SeenAfter(TemplateDataEntries(imports), old(importNames.elems))
    ensures allErrs == ListCheck(DataImports, TemplateDataEntries(imports), old(importNames.elems))
  {
    allErrs, names := [], importNames;
    ghost var entries, seen := TemplateDataEntries(imports), importNames.elems;
    ghost var parts := ListIssues(DataImports, entries, seen);
    for i := 0 to |imports|
      invariant names.elems == SeenBefore(entries, i, seen)
      invariant allErrs == ConcatAll(parts[..i])
    {
      var imp := imports[i];
      var problems := ValidateTemplateDataImport(imp);
      var issues := EnterName(DataImports, entries, i, seen, Entry(imp.name, problems, imp.name != ""), importNames);
      ConcatAllStep(parts, i);
      allErrs := allErrs + issues;
    }
    assert parts[..|imports|] == parts;
  }

  method ValidateTemplateElement(cd: DescriptorData) returns (problems: seq<Problem>)
    ensures problems == TemplateElementProblems(cd)
  {
    problems := [];
    if cd.configMapRef.Some? {
      problems := problems + [ConfigMapForbidden];
    }
    if cd.secretRef.Some? {
      problems := problems + [SecretForbidden];
    }
    if |cd.dataRef| == 0 {
      problems := problems + [DataRefRequired];
    }
  }

  method ValidateTemplateDescriptorList(list: seq<DescriptorData>) returns (problems: seq<Problem>)
    ensures problems == TemplateElementsProblems(list)
  {
    problems := [];
    ghost var parts := EachTemplateElement(list);
    for i := 0 to |list|
      invariant problems == Nested(parts, i)
    {
      var found := ValidateTemplateElement(list[i]);
      problems := problems + Inside(i, found);
    }
  }

  method ValidateTemplateDescriptorImport(imp: DescriptorImport) returns (problems: seq<Problem>)
    ensures problems == TemplateDescriptorProblems(imp)
  {
    var source := ValidateOneSource(DescriptorFields(imp), TEMPLATE_DESCRIPTOR_SOURCES);
    var configMap := When(imp.configMapRef.Some?, ConfigMapForbidden);
    var secret := When(imp.secretRef.Some?, SecretForbidden);
    problems := When(imp.name == "", NameRequired) + source + configMap + secret;
    if imp.list.Some? {
      var inside := ValidateTemplateDescriptorList(imp.list.value);
      problems := problems + inside;
    }
  }

  method ValidateInstallationTemplateComponentDescriptorImports(imports: seq<DescriptorImport>, importNames: StringSet)
    returns (allErrs: seq<Issue>, names: StringSet)
    modifies importNames
    ensures names == importNames && names.elems == SeenAfter(TemplateDescriptorEntries(imports), old(importNames.elems))
    ensures allErrs == ListCheck(DescriptorImports, TemplateDescriptorEntries(imports), old(importNames.elems))
  {
    allErrs, names := [], importNames;
    ghost var entries, seen := TemplateDescriptorEntries(imports), importNames.elems;
    ghost var parts := ListIssues(DescriptorImports, entries, seen);
    for i := 0 to |imports|
      invariant names.elems == SeenBefore(entries, i, seen)
      invariant allErrs == ConcatAll(parts[..i])
    {
      var problems := ValidateTemplateDescriptorImport(imports[i]);
      var issues := EnterName(DescriptorImports, entries, i, seen, Entry(imports[i].name, problems, true), importNames);
      ConcatAllStep(parts, i);
      allErrs := allErrs + issues;
    }
    assert parts[..|imports|] == parts;
  }

  method ValidateInstallationTemplateImports(imports: Imports) returns (allErrs: seq<Issue>)
    ensures allErrs == TemplateImportIssues(imports)
  {
    var importNames := new StringSet();
    allErrs, importNames := ValidateInstallationTemplateDataImports(imports.data, importNames);
    var tmpErrs;
    tmpErrs, importNames := ValidateInstallationTargetImports(imports.targets, importNames);
    allErrs := allErrs + tmpErrs;
    var rest;
    tmpErrs, rest := ValidateInstallationTemplateComponentDescriptorImports(imports.componentDescriptors, importNames);
    allErrs := allErrs + tmpErrs;
  }

  // ---------- Exports ----------

  /** A map from names to true stands for the set of its keys; a missing name reads as false. */
  predicate Marks(m: map<string, bool>, names: set<string>) {
    m.Keys == names && forall n :: n in m ==> m[n]
  }

  /** The end of every round over an export list. */
  method MarkName(section: Section, ghost entries: seq<Entry>, i: nat, entry: Entry, marked: map<string, bool>)
    returns (issues: seq<Issue>, newMarked: map<string, bool>)
    requires i < |entries| && entries[i] == entry && Marks(marked, SeenBefore(entries, i, {}))
    ensures Marks(newMarked, SeenBefore(entries, i + 1, {}))
    ensures issues == ListIssues(section, entries, {})[i]
  {
    SeenStep(entries, i, {});
    var problems := entry.problems;
    newMarked := marked;
    if entry.counted {
      if entry.name in marked && marked[entry.name] {
        problems := problems + [DuplicateName];
      }
      newMarked := marked[entry.name := true];
    }
    assert problems == EntryProblems(entry, SeenBefore(entries, i, {}));
    issues := Issues(section, i, problems);
  }

  method ValidateInstallationDataExports(exports: seq<DataExport>) returns (allErrs: seq<Issue>)
    ensures allErrs == ListCheck(DataExports, DataExportEntries(exports), {})
  {
    allErrs := [];
    var importNames: map<string, bool> := map[];
    ghost var entries := DataExportEntries(exports);
    ghost var parts := ListIssues(DataExports, entries, {});
    for i := 0 to |exports|
      invariant Marks(importNames, SeenBefore(entries, i, {}))
      invariant allErrs == ConcatAll(parts[..i])
    {
      var problems := When(exports[i].dataRef == "", DataRefRequired);
      if exports[i].name == "" {
        problems := problems + [NameRequired];
      }
      var issues;
      issues, importNames := MarkName(DataExports, entries, i, Entry(exports[i].name, problems, exports[i].name != ""),
                                      importNames);
      ConcatAllStep(parts, i);
      allErrs := allErrs + issues;
    }
    assert parts[..|exports|] == parts;
  }

  method ValidateInstallationTargetExports(exports: seq<TargetExport>) returns (allErrs: seq<Issue>)
    ensures allErrs == ListCheck(TargetExports, TargetExportEntries(exports), {})
  {
    allErrs := [];
    var importNames: map<string, bool> := map[];
    ghost var entries := TargetExportEntries(exports);
    ghost var parts := ListIssues(TargetExports, entries, {});
    for i := 0 to |exports|
      invariant Marks(importNames, SeenBefore(entries, i, {}))
      invariant allErrs == ConcatAll(parts[..i])
    {
      var problems := When(exports[i].target == "", TargetRequired);
      if exports[i].name == "" {
        problems := problems + [NameRequired];
      }
      var issues;
      issues, importNames := MarkName(TargetExports, entries, i,
                                      Entry(exports[i].name, problems, exports[i].name != ""), importNames);
      ConcatAllStep(parts, i);
      allErrs := allErrs + issues;
    }
    assert parts[..|exports|] == parts;
  }

  method ValidateInstallationExports(exports: Exports) returns (allErrs: seq<Issue>)
    ensures allErrs == ExportIssues(exports)
  {
    allErrs := ValidateInstallationDataExports(exports.data);
    var targets := ValidateInstallationTargetExports(exports.targets);
    allErrs := allErrs + targets;
  }
}
