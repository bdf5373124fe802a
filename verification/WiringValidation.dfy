/**
 The validation of a list of installation templates as it is performed: sets of provided and exported names
 that grow while the templates are gone through, and a final look at everything imported.
 */
module WiringValidation {
  import opened Basics
  import opened StringSets
  import opened ConfigChecks
  import opened BlueprintDefinitions
  import opened InstallationImports
  import opened InstallationValidation
  import opened Wiring

  // ---------- The parent ----------

  lemma ParentStep(defs: seq<ImportDef>, i: nat, kind: Kind)
    requires i < |defs|
    ensures ParentNames(defs, i + 1, kind) ==
      ParentNames(defs, i, kind) + if Provides(defs[i], kind) then {defs[i].name} else {}
  {
  }

  lemma TypeNames()
    ensures |DATA| == 4 && |TARGET| == 6 && |TARGET_LIST| == 10
    ensures |COMPONENT_DESCRIPTOR| == 19 && |COMPONENT_DESCRIPTOR_LIST| == 23
  {
  }

  method EnterParentImport(def: ImportDef, data: StringSet, targets: StringSet, descriptors: StringSet)
    requires data != targets && targets != descriptors && data != descriptors
    modifies data, targets, descriptors
    ensures data.elems == old(data.elems) + if ProvidesData(def) then {def.name} else {}
    ensures targets.elems == old(targets.elems) + if ProvidesTarget(def) then {def.name} else {}
    ensures descriptors.elems == old(descriptors.elems) + if ProvidesDescriptor(def) then {def.name} else {}
  {
    TypeNames();
    if |def.importType| != 0 {
      if def.importType == DATA {
        data.Insert(def.name);
      } else if def.importType == TARGET || def.importType == TARGET_LIST {
        targets.Insert(def.name);
      } else if def.importType == COMPONENT_DESCRIPTOR || def.importType == COMPONENT_DESCRIPTOR_LIST {
        descriptors.Insert(def.name);
      }
    } else {
      if def.schema.Some? {
        data.Insert(def.name);
      } else if |def.targetType| != 0 {
        targets.Insert(def.name);
      }
    }
  }

  method CollectParentImports(defs: seq<ImportDef>)
    returns (data: StringSet, targets: StringSet, descriptors: StringSet)
    ensures fresh(data) && fresh(targets) && fresh(descriptors)
    ensures data.elems == Parent(defs, DataKind) && targets.elems == Parent(defs, TargetKind)
      && descriptors.elems == Parent(defs, DescriptorKind)
  {
    data := new StringSet();
    targets := new StringSet();
    descriptors := new StringSet();
    for i := 0 to |defs|
      invariant fresh(data) && fresh(targets) && fresh(descriptors) && data != targets && targets != descriptors
        && data != descriptors
      invariant data.elems == ParentNames(defs, i, DataKind)
      invariant targets.elems == ParentNames(defs, i, TargetKind)
      invariant descriptors.elems == ParentNames(defs, i, DescriptorKind)
    {
      ParentStep(defs, i, DataKind);
      ParentStep(defs, i, TargetKind);
      ParentStep(defs, i, DescriptorKind);
      EnterParentImport(defs[i], data, targets, descriptors);
    }
  }

  // ---------- One template ----------

  method ValidateTemplateName(t: Template) returns (issues: seq<TemplateIssue>)
    ensures issues == NameIssues(t)
  {
    issues := [];
    if |t.name| == 0 {
      issues := issues + [TemplateNameRequired];
    } else {
      issues := issues + seq(t.nameMessages, _ => TemplateNameInvalid);
      if |t.name| > INSTALLATION_GENERATE_NAME_MAX_LENGTH - 1 {
        issues := issues + [TemplateNameTooLong];
      }
    }
  }

  method ValidateTemplate(t: Template) returns (issues: seq<TemplateIssue>)
    ensures issues == TemplateIssues(t)
  {
    issues := ValidateTemplateName(t);
    if |t.blueprintRef| == 0 && !t.filesystemGiven {
      issues := issues + [BlueprintRequired];
    }
    var imports := ValidateInstallationTemplateImports(t.imports);
    var exports := ValidateInstallationExports(t.exports);
    issues := issues + OfImports(imports) + OfExports(exports);
  }

  /** Checks the exports of one template and enters them. */
  method EnterExports(kind: Kind, refs: seq<string>, exported: StringSet, parent: StringSet)
    returns (issues: seq<WiringIssue>)
    requires exported != parent
    modifies exported
    ensures exported.elems == old(exported.elems) + Elements(refs)
    ensures issues == Clashes(kind, refs, |refs|, old(exported.elems), parent.elems)
  {
    issues := [];
    for i := 0 to |refs|
      invariant exported.elems == old(exported.elems) + Elements(refs[..i])
      invariant issues == Clashes(kind, refs, i, old(exported.elems), parent.elems)
    {
      if exported.Has(refs[i]) {
        issues := issues + [ExportedTwice(kind, refs[i])];
      }
      if parent.Has(refs[i]) {
        issues := issues + [ExportedByParent(kind, refs[i])];
      }
      exported.Insert(refs[i]);
      assert refs[..i + 1] == refs[..i] + [refs[i]];
    }
    assert refs[..|refs|] == refs;
  }

  method CollectDataRefs(t: Template) returns (refs: seq<string>)
    ensures refs == DataImportRefs(t)
  {
    refs := [];
    for i := 0 to |t.imports.data|
      invariant refs == DataImportRefs(t)[..i]
    {
      refs := refs + [t.imports.data[i].dataRef];
    }
  }

  method CollectTargetRefs(imports: seq<TargetImport>) returns (refs: seq<string>)
    ensures refs == ConcatAll(TargetImportRefs(imports))
  {
    refs := [];
    ghost var parts := TargetImportRefs(imports);
    for i := 0 to |imports|
      invariant refs == ConcatAll(parts[..i])
    {
      ConcatAllStep(parts, i);
      if |imports[i].target| != 0 {
        refs := refs + [imports[i].target];
      } else if imports[i].targets.Some? {
        ghost var start := refs;
        for k := 0 to |imports[i].targets.value|
          invariant refs == start + imports[i].targets.value[..k]
        {
          refs := refs + [imports[i].targets.value[k]];
        }
      } else if |imports[i].targetListReference| != 0 {
        refs := refs + [imports[i].targetListReference];
      }
    }
    assert parts[..|imports|] == parts;
  }

  method CollectListRefs(list: seq<DescriptorData>) returns (refs: seq<string>)
    ensures refs == ListRefs(list, |list|)
  {
    refs := [];
    for k := 0 to |list|
      invariant refs == ListRefs(list, k)
    {
      if |list[k].dataRef| != 0 {
        refs := refs + [list[k].dataRef];
      }
    }
  }

  method CollectDescriptorRefs(imports: seq<DescriptorImport>) returns (refs: seq<string>)
    ensures refs == ConcatAll(DescriptorImportRefs(imports))
  {
    refs := [];
    ghost var parts := DescriptorImportRefs(imports);
    for i := 0 to |imports|
      invariant refs == ConcatAll(parts[..i])
    {
      ConcatAllStep(parts, i);
      if |imports[i].dataRef| != 0 {
        refs := refs + [imports[i].dataRef];
      } else if imports[i].list.Some? {
        var inside := CollectListRefs(imports[i].list.value);
        refs := refs + inside;
      }
    }
    assert parts[..|imports|] == parts;
  }

  // ---------- All templates ----------

  method ValidateSatisfiedImports(kind: Kind, parent: StringSet, exports: StringSet, imports: seq<string>)
    returns (issues: seq<WiringIssue>)
    ensures issues == Unsatisfied(kind, imports, |imports|, exports.elems, parent.elems)
  {
    issues := [];
    for i := 0 to |imports|
      invariant issues == Unsatisfied(kind, imports, i, exports.elems, parent.elems)
    {
      if !exports.Has(imports[i]) && !parent.Has(imports[i]) {
        issues := issues + [NotSatisfied(kind, imports[i])];
      }
    }
  }

  /** What the loop over the templates has gathered. */
  datatype Gathered = Gathered(
    exportedData: set<string>,
    exportedTargets: set<string>,
    names: set<string>,
    importedData: seq<string>,
    importedTargets: seq<string>,
    importedDescriptors: seq<string>)

  function GatherNext(p: Profile, g: Gathered): Gathered {
    Gathered(
      g.exportedData + Elements(p.dataExports), g.exportedTargets + Elements(p.targetExports), g.names + {p.name},
      g.importedData + p.dataImports, g.importedTargets + p.targetImports, g.importedDescriptors + p.descriptorImports)
  }

  /** What `n` rounds gather. */
  function GatheredAfter(ps: seq<Profile>, n: nat): Gathered
    requires n <= |ps|
  {
    if n == 0 then Gathered({}, {}, {}, [], [], []) else GatherNext(ps[n - 1], GatheredAfter(ps, n - 1))
  }

  /** What one round reports, given what was gathered before it. */
  function RoundIssues(i: nat, p: Profile, g: Gathered, parentData: set<string>,
                       parentTargets: set<string>): seq<WiringIssue>
  {
    Clashes(DataKind, p.dataExports, |p.dataExports|, g.exportedData, parentData)
    + Clashes(TargetKind, p.targetExports, |p.targetExports|, g.exportedTargets, parentTargets)
    + InTemplates(i, p.own) + NameClash(p.name, g.names)
  }

  /** What `n` rounds report. */
  function RoundsIssues(ps: seq<Profile>, n: nat, parentData: set<string>, parentTargets: set<string>): seq<WiringIssue>
    requires n <= |ps|
  {
    if n == 0 then []
    else
      RoundsIssues(ps, n - 1, parentData, parentTargets)
      + RoundIssues(n - 1, ps[n - 1], GatheredAfter(ps, n - 1), parentData, parentTargets)
  }

  ghost predicate GatheredBefore(ps: seq<Profile>, i: nat, g: Gathered) {
    && i <= |ps|
    && g.exportedData == ExportedBefore(ps, i, DataKind)
    && g.exportedTargets == ExportedBefore(ps, i, TargetKind)
    && g.names == NamesBefore(ps, i)
    && g.importedData == ConcatAll(ImportsByTemplate(ps, DataKind)[..i])
    && g.importedTargets == ConcatAll(ImportsByTemplate(ps, TargetKind)[..i])
    && g.importedDescriptors == ConcatAll(ImportsByTemplate(ps, DescriptorKind)[..i])
  }

  lemma ExportedStep(ps: seq<Profile>, i: nat, kind: Kind)
    requires i < |ps|
    ensures ExportedBefore(ps, i + 1, kind) == ExportedBefore(ps, i, kind) + Elements(ps[i].Exports(kind))
  {
    ConcatAllStep(ExportsByTemplate(ps, kind), i);
    ElementsConcat(ConcatAll(ExportsByTemplate(ps, kind)[..i]), ps[i].Exports(kind));
  }

  lemma ImportedStep(ps: seq<Profile>, i: nat, kind: Kind)
    requires i < |ps|
    ensures ConcatAll(ImportsByTemplate(ps, kind)[..i + 1]) ==
      ConcatAll(ImportsByTemplate(ps, kind)[..i]) + ps[i].Imports(kind)
  {
    ConcatAllStep(ImportsByTemplate(ps, kind), i);
  }

  lemma NamesStep(ps: seq<Profile>, i: nat)
    requires i < |ps|
    ensures NamesBefore(ps, i + 1) == NamesBefore(ps, i) + {ps[i].name}
  {
  }

  lemma GatheredStep(ps: seq<Profile>, i: nat, g: Gathered)
    requires GatheredBefore(ps, i, g) && i < |ps|
    ensures GatheredBefore(ps, i + 1, GatherNext(ps[i], g))
  {
    ExportedStep(ps, i, DataKind);
    ExportedStep(ps, i, TargetKind);
    ImportedStep(ps, i, DataKind);
    ImportedStep(ps, i, TargetKind);
    ImportedStep(ps, i, DescriptorKind);
    NamesStep(ps, i);
  }

  lemma RoundIsStep(parentData: set<string>, parentTargets: set<string>, ps: seq<Profile>, i: nat, g: Gathered)
    requires GatheredBefore(ps, i, g) && i < |ps|
    ensures RoundIssues(i, ps[i], g, parentData, parentTargets) == StepIssues(parentData, parentTargets, ps)[i]
  {
  }

  lemma {:induction false} GatheredRight(ps: seq<Profile>, n: nat)
    requires n <= |ps|
    ensures GatheredBefore(ps, n, GatheredAfter(ps, n))
  {
    if n > 0 {
      GatheredRight(ps, n - 1);
      GatheredStep(ps, n - 1, GatheredAfter(ps, n - 1));
    }
  }

  lemma RoundsStep(parentData: set<string>, parentTargets: set<string>, ps: seq<Profile>, i: nat)
    requires i < |ps|
    ensures RoundsIssues(ps, i + 1, parentData, parentTargets) ==
      RoundsIssues(ps, i, parentData, parentTargets) + StepIssues(parentData, parentTargets, ps)[i]
  {
    GatheredRight(ps, i);
    RoundIsStep(parentData, parentTargets, ps, i, GatheredAfter(ps, i));
  }

  lemma {:induction false} RoundsDone(parentData: set<string>, parentTargets: set<string>, ps: seq<Profile>, n: nat)
    requires n <= |ps|
    ensures RoundsIssues(ps, n, parentData, parentTargets) == ConcatAll(StepIssues(parentData, parentTargets, ps)[..n])
  {
    if n > 0 {
      var i: nat := n - 1;
      RoundsDone(parentData, parentTargets, ps, i);
      RoundsStep(parentData, parentTargets, ps, i);
      ConcatAllStep(StepIssues(parentData, parentTargets, ps), i);
    }
  }

  /** One round of the loop over the templates. */
  method ValidateNextTemplate(ts: seq<Template>, i: nat, exportedData: StringSet, exportedTargets: StringSet,
                              names: StringSet,
                              parentData: StringSet, parentTargets: StringSet, ghost ps: seq<Profile>,
                              ghost g: Gathered)
    returns (issues: seq<WiringIssue>, importedData: seq<string>, importedTargets: seq<string>,
             importedDescriptors: seq<string>)
    requires Fits(ts, ps) && i < |ts|
    requires exportedData != exportedTargets && exportedTargets != names && exportedData != names
    requires {parentData, parentTargets} !! {exportedData, exportedTargets, names}
    requires g.exportedData == exportedData.elems && g.exportedTargets == exportedTargets.elems
    requires g.names == names.elems
    modifies exportedData, exportedTargets, names
    ensures exportedData.elems == g.exportedData + Elements(ps[i].dataExports)
    ensures exportedTargets.elems == g.exportedTargets + Elements(ps[i].targetExports)
    ensures names.elems == g.names + {ps[i].name}
    ensures importedData == ps[i].dataImports && importedTargets == ps[i].targetImports
    ensures importedDescriptors == ps[i].descriptorImports
    ensures issues == RoundIssues(i, ps[i], g, parentData.elems, parentTargets.elems)
  {
    var t := ts[i];
    assert ps[i] == ProfileOf(ts[i]);
    var data := EnterExports(DataKind, DataExportRefs(t), exportedData, parentData);
    importedData := CollectDataRefs(t);
    var targets := EnterExports(TargetKind, TargetExportRefs(t), exportedTargets, parentTargets);
    importedTargets := CollectTargetRefs(t.imports.targets);
    importedDescriptors := CollectDescriptorRefs(t.imports.componentDescriptors);
    var own := ValidateTemplate(t);
    var duplicate: seq<WiringIssue> := [];
    if |t.name| != 0 && names.Has(t.name) {
      duplicate := [DuplicateTemplate(t.name)];
    }
    names.Insert(t.name);
    issues := data + targets + InTemplates(i, own) + duplicate;
  }

  /** The loop over the templates. */
  method GoThroughTemplates(ts: seq<Template>, parentData: StringSet, parentTargets: StringSet, exportedData: StringSet,
                            exportedTargets: StringSet,
                            ghost ps: seq<Profile>)
    returns (allErrs: seq<WiringIssue>, importedData: seq<string>, importedTargets: seq<string>,
             importedDescriptors: seq<string>)
    requires Fits(ts, ps)
    requires exportedData != exportedTargets && {parentData, parentTargets} !! {exportedData, exportedTargets}
    requires exportedData.elems == exportedTargets.elems == {}
    modifies exportedData, exportedTargets
    ensures allErrs == RoundsIssues(ps, |ps|, parentData.elems, parentTargets.elems)
    ensures var g := GatheredAfter(ps, |ps|);
      && exportedData.elems == g.exportedData && exportedTargets.elems == g.exportedTargets
      && importedData == g.importedData && importedTargets == g.importedTargets
      && importedDescriptors == g.importedDescriptors
  {
    var names := new StringSet();
    importedData, importedTargets, importedDescriptors := [], [], [];
    allErrs := [];
    for i := 0 to |ts|
      invariant Gathered(exportedData.elems, exportedTargets.elems, names.elems, importedData, importedTargets,
                         importedDescriptors) == GatheredAfter(ps, i)
      invariant allErrs == RoundsIssues(ps, i, parentData.elems, parentTargets.elems)
    {
      var issues, d, t, c :=
        ValidateNextTemplate(ts, i, exportedData, exportedTargets, names, parentData, parentTargets, ps,
                             GatheredAfter(ps, i));
      importedData, importedTargets, importedDescriptors := importedData + d, importedTargets + t,
        importedDescriptors + c;
      allErrs := allErrs + issues;
    }
  }

  lemma WholeSlices(ps: seq<Profile>, kind: Kind)
    ensures ImportsByTemplate(ps, kind)[..|ps|] == ImportsByTemplate(ps, kind)
    ensures ExportsByTemplate(ps, kind)[..|ps|] == ExportsByTemplate(ps, kind)
  {
  }

  /** In the end everything imported and exported is gathered. */
  lemma EverythingGathered(ps: seq<Profile>, g: Gathered)
    requires GatheredBefore(ps, |ps|, g)
    ensures g.importedData == AllImports(ps, DataKind) && g.exportedData == Elements(AllExports(ps, DataKind))
    ensures g.importedTargets == AllImports(ps, TargetKind) && g.exportedTargets == Elements(AllExports(ps, TargetKind))
    ensures g.importedDescriptors == AllImports(ps, DescriptorKind)
  {
    WholeSlices(ps, DataKind);
    WholeSlices(ps, TargetKind);
    WholeSlices(ps, DescriptorKind);
  }

  lemma NothingExported(ps: seq<Profile>)
    ensures Elements(AllExports(ps, DescriptorKind)) == {}
  {
    ConcatAllEmpty(ExportsByTemplate(ps, DescriptorKind));
  }

  /** All rounds and the final look at the references make up the whole result. */
  lemma AllRounds(d: set<string>, t: set<string>, c: set<string>, ps: seq<Profile>)
    ensures var g := GatheredAfter(ps, |ps|);
      ProfileIssues(d, t, c, ps) == RoundsIssues(ps, |ps|, d, t)
        + Unsatisfied(DataKind, g.importedData, |g.importedData|, g.exportedData, d)
        + Unsatisfied(TargetKind, g.importedTargets, |g.importedTargets|, g.exportedTargets, t)
        + Unsatisfied(DescriptorKind, g.importedDescriptors, |g.importedDescriptors|, {}, c)
  {
    RoundsDone(d, t, ps, |ps|);
    GatheredRight(ps, |ps|);
    EverythingGathered(ps, GatheredAfter(ps, |ps|));
    assert StepIssues(d, t, ps)[..|ps|] == StepIssues(d, t, ps);
    NothingExported(ps);
  }

  method ValidateInstallationTemplates(defs: seq<ImportDef>, ts: seq<Template>) returns (allErrs: seq<WiringIssue>)
    ensures allErrs == WiringIssues(defs, ts)
  {
    var parentData, parentTargets, parentDescriptors := CollectParentImports(defs);
    var exportedData := new StringSet();
    var exportedTargets := new StringSet();
    ghost var ps := Profiles(ts);
    var importedData, importedTargets, importedDescriptors;
    allErrs, importedData, importedTargets, importedDescriptors :=
      GoThroughTemplates(ts, parentData, parentTargets, exportedData, exportedTargets, ps);
    var none := new StringSet();
    var data := ValidateSatisfiedImports(DataKind, parentData, exportedData, importedData);
    var targets := ValidateSatisfiedImports(TargetKind, parentTargets, exportedTargets, importedTargets);
    var descriptors := ValidateSatisfiedImports(DescriptorKind, parentDescriptors, none, importedDescriptors);
    allErrs := allErrs + data + targets + descriptors;
    AllRounds(parentData.elems, parentTargets.elems, parentDescriptors.elems, ps);
  }
}
