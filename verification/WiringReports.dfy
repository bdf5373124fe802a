/**
 Which issue is reported about the templates of sub-installations, and how often: said by their exports and
 imports.
 */
module WiringReports {
  import opened Basics
  import opened Counting
  import opened BlueprintDefinitions
  import opened NamedLists
  import opened InstallationImports
  import opened InstallationReports
  import opened Wiring

  // ---------- What the templates export and import ----------

  function DataExported(exports: seq<DataExport>, ref: string): nat {
    if exports == [] then 0
    else DataExported(exports[..|exports| - 1], ref) + Once(exports[|exports| - 1].dataRef == ref)
  }

  function TargetExported(exports: seq<TargetExport>, ref: string): nat {
    if exports == [] then 0
    else TargetExported(exports[..|exports| - 1], ref) + Once(exports[|exports| - 1].target == ref)
  }

  /** How many export entries of a template have a reference. */
  function Exported(t: Template, kind: Kind, ref: string): nat {
    match kind
    case DataKind => DataExported(t.exports.data, ref)
    case TargetKind => TargetExported(t.exports.targets, ref)
    case DescriptorKind => 0
  }

  function ExportedBy(ts: seq<Template>, kind: Kind, ref: string): nat {
    if ts == [] then 0 else ExportedBy(ts[..|ts| - 1], kind, ref) + Exported(ts[|ts| - 1], kind, ref)
  }

  function DataImported(imports: seq<DataImport>, ref: string): nat {
    if imports == [] then 0
    else DataImported(imports[..|imports| - 1], ref) + Once(imports[|imports| - 1].dataRef == ref)
  }

  ghost function TargetImported(imports: seq<TargetImport>, ref: string): nat {
    if imports == [] then 0
    else TargetImported(imports[..|imports| - 1], ref) + Times(CollectedTargets(imports[|imports| - 1]), ref)
  }

  ghost function DescriptorImported(imports: seq<DescriptorImport>, ref: string): nat {
    if imports == [] then 0
    else DescriptorImported(imports[..|imports| - 1], ref) + Times(CollectedDescriptors(imports[|imports| - 1]), ref)
  }

  /** How often a template's imports refer to something. */
  ghost function Imported(t: Template, kind: Kind, ref: string): nat {
    match kind
    case DataKind => DataImported(t.imports.data, ref)
    case TargetKind => TargetImported(t.imports.targets, ref)
    case DescriptorKind => DescriptorImported(t.imports.componentDescriptors, ref)
  }

  ghost function ImportedBy(ts: seq<Template>, kind: Kind, ref: string): nat {
    if ts == [] then 0 else ImportedBy(ts[..|ts| - 1], kind, ref) + Imported(ts[|ts| - 1], kind, ref)
  }

  lemma {:induction false} DataExportedTimes(exports: seq<DataExport>, refs: seq<string>, ref: string)
    requires |refs| == |exports| && forall k :: 0 <= k < |refs| ==> refs[k] == exports[k].dataRef
    ensures Times(refs, ref) == DataExported(exports, ref)
  {
    if refs != [] {
      var i: nat := |refs| - 1;
      DataExportedTimes(exports[..i], refs[..i], ref);
      assert refs == refs[..i] + [refs[i]];
      TimesConcat(refs[..i], [refs[i]], ref);
    }
  }

  lemma {:induction false} TargetExportedTimes(exports: seq<TargetExport>, refs: seq<string>, ref: string)
    requires |refs| == |exports| && forall k :: 0 <= k < |refs| ==> refs[k] == exports[k].target
    ensures Times(refs, ref) == TargetExported(exports, ref)
  {
    if refs != [] {
      var i: nat := |refs| - 1;
      TargetExportedTimes(exports[..i], refs[..i], ref);
      assert refs == refs[..i] + [refs[i]];
      TimesConcat(refs[..i], [refs[i]], ref);
    }
  }

  lemma {:induction false} DataImportedTimes(imports: seq<DataImport>, refs: seq<string>, ref: string)
    requires |refs| == |imports| && forall k :: 0 <= k < |refs| ==> refs[k] == imports[k].dataRef
    ensures Times(refs, ref) == DataImported(imports, ref)
  {
    if refs != [] {
      var i: nat := |refs| - 1;
      DataImportedTimes(imports[..i], refs[..i], ref);
      assert refs == refs[..i] + [refs[i]];
      TimesConcat(refs[..i], [refs[i]], ref);
    }
  }

  lemma {:induction false} TargetImportedTimes(imports: seq<TargetImport>, parts: seq<seq<string>>, ref: string)
    requires |parts| == |imports| && forall k :: 0 <= k < |parts| ==> parts[k] == CollectedTargets(imports[k])
    ensures Times(ConcatAll(parts), ref) == TargetImported(imports, ref)
  {
    if parts != [] {
      var i: nat := |parts| - 1;
      TargetImportedTimes(imports[..i], parts[..i], ref);
      TimesConcat(ConcatAll(parts[..i]), parts[i], ref);
    }
  }

  lemma {:induction false} DescriptorImportedTimes(imports: seq<DescriptorImport>, parts: seq<seq<string>>, ref: string)
    requires |parts| == |imports| && forall k :: 0 <= k < |parts| ==> parts[k] == CollectedDescriptors(imports[k])
    ensures Times(ConcatAll(parts), ref) == DescriptorImported(imports, ref)
  {
    if parts != [] {
      var i: nat := |parts| - 1;
      DescriptorImportedTimes(imports[..i], parts[..i], ref);
      TimesConcat(ConcatAll(parts[..i]), parts[i], ref);
    }
  }

  lemma ExportedTimes(t: Template, kind: Kind, ref: string)
    ensures Times(ProfileOf(t).Exports(kind), ref) == Exported(t, kind, ref)
  {
    DataExportedTimes(t.exports.data, DataExportRefs(t), ref);
    TargetExportedTimes(t.exports.targets, TargetExportRefs(t), ref);
  }

  lemma ImportedTimes(t: Template, kind: Kind, ref: string)
    ensures Times(ProfileOf(t).Imports(kind), ref) == Imported(t, kind, ref)
  {
    DataImportedTimes(t.imports.data, DataImportRefs(t), ref);
    TargetImportedTimes(t.imports.targets, TargetImportRefs(t.imports.targets), ref);
    DescriptorImportedTimes(t.imports.componentDescriptors, DescriptorImportRefs(t.imports.componentDescriptors), ref);
  }

  lemma {:induction false} ExportedByTimes(ts: seq<Template>, parts: seq<seq<string>>, kind: Kind, ref: string)
    requires |parts| == |ts|
    requires forall i :: 0 <= i < |parts| ==> Times(parts[i], ref) == Exported(ts[i], kind, ref)
    ensures Times(ConcatAll(parts), ref) == ExportedBy(ts, kind, ref)
  {
    if parts != [] {
      var i: nat := |parts| - 1;
      ExportedByTimes(ts[..i], parts[..i], kind, ref);
      TimesConcat(ConcatAll(parts[..i]), parts[i], ref);
    }
  }

  lemma {:induction false} ImportedByTimes(ts: seq<Template>, parts: seq<seq<string>>, kind: Kind, ref: string)
    requires |parts| == |ts|
    requires forall i :: 0 <= i < |parts| ==> Times(parts[i], ref) == Imported(ts[i], kind, ref)
    ensures Times(ConcatAll(parts), ref) == ImportedBy(ts, kind, ref)
  {
    if parts != [] {
      var i: nat := |parts| - 1;
      ImportedByTimes(ts[..i], parts[..i], kind, ref);
      TimesConcat(ConcatAll(parts[..i]), parts[i], ref);
    }
  }

  /** All exports and imports, by the templates. */
  lemma AllTimes(ts: seq<Template>, kind: Kind, ref: string)
    ensures Times(AllExports(Profiles(ts), kind), ref) == ExportedBy(ts, kind, ref)
    ensures Times(AllImports(Profiles(ts), kind), ref) == ImportedBy(ts, kind, ref)
  {
    var ps := Profiles(ts);
    var exports, imports := ExportsByTemplate(ps, kind), ImportsByTemplate(ps, kind);
    forall i | 0 <= i < |ts|
      ensures Times(exports[i], ref) ==
        Exported(ts[i], kind, ref) && Times(imports[i], ref) == Imported(ts[i], kind, ref)
    {
      ExportedTimes(ts[i], kind, ref);
      ImportedTimes(ts[i], kind, ref);
    }
    ExportedByTimes(ts, exports, kind, ref);
    ImportedByTimes(ts, imports, kind, ref);
  }

  // ---------- Clashes ----------

  /** All but the first. */
  function Further(n: nat): nat {
    if n == 0 then 0 else n - 1
  }

  /** How often a clash is due about some references, given which were exported before. */
  ghost function ClashDue(kind: Kind, refs: seq<string>, exported: set<string>, parent: set<string>,
                          issue: WiringIssue): nat
  {
    match issue
    case ExportedTwice(k, ref) =>
      if k != kind then 0 else if ref in exported then Times(refs, ref) else Further(Times(refs, ref))
    case ExportedByParent(k, ref) => if k == kind && ref in parent then Times(refs, ref) else 0
    case _ => 0
  }

  lemma ClashStep(kind: Kind, refs: seq<string>, exported: set<string>, parent: set<string>, ref: string,
                  issue: WiringIssue)
    ensures ClashDue(kind, refs + [ref], exported, parent, issue) ==
      ClashDue(kind, refs, exported, parent, issue)
      + Once(issue == ExportedTwice(kind, ref) && ref in exported + Elements(refs))
      + Once(issue == ExportedByParent(kind, ref) && ref in parent)
  {
    if issue.ExportedTwice? || issue.ExportedByParent? {
      TimesConcat(refs, [ref], issue.ref);
      TimesOfAbsent(refs, ref);
    }
  }

  lemma ClashesStep(kind: Kind, refs: seq<string>, i: nat, exported: set<string>, parent: set<string>,
                    issue: WiringIssue)
    requires i < |refs|
    ensures Times(Clashes(kind, refs, i + 1, exported, parent), issue) ==
      Times(Clashes(kind, refs, i, exported, parent), issue)
      + Once(issue == ExportedTwice(kind, refs[i]) && refs[i] in exported + Elements(refs[..i]))
      + Once(issue == ExportedByParent(kind, refs[i]) && refs[i] in parent)
  {
    var before := Clashes(kind, refs, i, exported, parent);
    var twice := if refs[i] in exported + Elements(refs[..i]) then [ExportedTwice(kind, refs[i])] else [];
    var byParent := if refs[i] in parent then [ExportedByParent(kind, refs[i])] else [];
    TimesConcat(before, twice, issue);
    TimesConcat(before + twice, byParent, issue);
  }

  lemma {:induction false} ClashTimes(kind: Kind, refs: seq<string>, n: nat, exported: set<string>, parent: set<string>,
                                      issue: WiringIssue)
    requires n <= |refs|
    ensures Times(Clashes(kind, refs, n, exported, parent), issue) == ClashDue(kind, refs[..n], exported, parent, issue)
  {
    if n > 0 {
      var i: nat := n - 1;
      ClashTimes(kind, refs, i, exported, parent, issue);
      ClashStep(kind, refs[..i], exported, parent, refs[i], issue);
      PrefixStep(refs, i);
      ClashesStep(kind, refs, i, exported, parent, issue);
    }
  }

  /** Clashes of one template after another: what was exported before, and what is exported now. */
  lemma ClashThen(kind: Kind, before: seq<string>, refs: seq<string>, parent: set<string>, issue: WiringIssue)
    ensures ClashDue(kind, before + refs, {}, parent, issue) ==
      ClashDue(kind, before, {}, parent, issue) + ClashDue(kind, refs, Elements(before), parent, issue)
  {
    if issue.ExportedTwice? || issue.ExportedByParent? {
      TimesConcat(before, refs, issue.ref);
      TimesOfAbsent(before, issue.ref);
    }
  }

  // ---------- What going through the templates reports ----------

  function ProfileNames(ps: seq<Profile>): seq<string> {
    seq(|ps|, i requires 0 <= i < |ps| => ps[i].name)
  }

  ghost function ClashesDue(parentData: set<string>, parentTargets: set<string>, ps: seq<Profile>, n: nat,
                            issue: WiringIssue): nat
    requires n <= |ps|
  {
    ClashDue(DataKind, ConcatAll(ExportsByTemplate(ps, DataKind)[..n]), {}, parentData, issue)
    + ClashDue(TargetKind, ConcatAll(ExportsByTemplate(ps, TargetKind)[..n]), {}, parentTargets, issue)
  }

  /** How often an issue is due when the first `n` templates are gone through. */
  ghost function StepsDue(parentData: set<string>, parentTargets: set<string>, ps: seq<Profile>, n: nat,
                          issue: WiringIssue): nat
    requires n <= |ps|
  {
    match issue
    case ExportedTwice(kind, ref) => ClashesDue(parentData, parentTargets, ps, n, issue)
    case ExportedByParent(kind, ref) => ClashesDue(parentData, parentTargets, ps, n, issue)
    case DuplicateTemplate(name) => if name == "" then 0 else Further(Times(ProfileNames(ps)[..n], name))
    case InTemplate(index, own) => if index < n then Times(ps[index].own, own) else 0
    case NotSatisfied(_, _) => 0
  }

  lemma ClashesOfTimes(parent: set<string>, ps: seq<Profile>, i: nat, kind: Kind, issue: WiringIssue)
    requires i < |ps|
    ensures ClashDue(kind, ConcatAll(ExportsByTemplate(ps, kind)[..i + 1]), {}, parent, issue) ==
      ClashDue(kind, ConcatAll(ExportsByTemplate(ps, kind)[..i]), {}, parent, issue)
      + Times(ClashesOf(parent, ps, i, kind), issue)
  {
    var refs := ps[i].Exports(kind);
    ConcatAllStep(ExportsByTemplate(ps, kind), i);
    ClashThen(kind, ConcatAll(ExportsByTemplate(ps, kind)[..i]), refs, parent, issue);
    ClashTimes(kind, refs, |refs|, ExportedBefore(ps, i, kind), parent, issue);
    assert refs[..|refs|] == refs;
  }

  lemma OwnStep(ps: seq<Profile>, i: nat, issue: WiringIssue)
    requires i < |ps|
    ensures Times(InTemplates(i, ps[i].own), issue) ==
      if issue.InTemplate? && issue.index == i then Times(ps[i].own, issue.issue) else 0
  {
    if issue.InTemplate? && issue.index == i {
      TimesMapped(ps[i].own, InTemplates(i, ps[i].own), x => InTemplate(i, x), issue.issue);
    } else {
      TimesOfAbsent(InTemplates(i, ps[i].own), issue);
    }
  }

  lemma NameStep(ps: seq<Profile>, i: nat, name: string)
    requires i < |ps|
    ensures Times(ProfileNames(ps)[..i + 1], name) == Times(ProfileNames(ps)[..i], name) + Once(ps[i].name == name)
    ensures Times(ProfileNames(ps)[..i], ps[i].name) > 0 <==> ps[i].name in NamesBefore(ps, i)
  {
    var names := ProfileNames(ps);
    PrefixStep(names, i);
    TimesConcat(names[..i], [names[i]], name);
    TimesOfAbsent(names[..i], ps[i].name);
    if ps[i].name in NamesBefore(ps, i) {
      var k :| 0 <= k < i && ps[k].name == ps[i].name;
      assert names[..i][k] == ps[i].name;
    }
    if ps[i].name in names[..i] {
      var k := Position(names[..i], ps[i].name);
      assert ps[k].name == ps[i].name;
    }
  }

  lemma NameClashTimes(ps: seq<Profile>, i: nat, issue: WiringIssue)
    requires i < |ps|
    ensures Times(NameClash(ps[i].name, NamesBefore(ps, i)), issue) ==
      Once(issue == DuplicateTemplate(ps[i].name) && ps[i].name != "" && ps[i].name in NamesBefore(ps, i))
  {
  }

  lemma StepTimes(parentData: set<string>, parentTargets: set<string>, ps: seq<Profile>, i: nat, issue: WiringIssue)
    requires i < |ps|
    ensures Times(StepIssues(parentData, parentTargets, ps)[i], issue) ==
      Times(ClashesOf(parentData, ps, i, DataKind), issue) + Times(ClashesOf(parentTargets, ps, i, TargetKind), issue)
      + Times(InTemplates(i, ps[i].own), issue) + Times(NameClash(ps[i].name, NamesBefore(ps, i)), issue)
  {
    TimesOfFour(ClashesOf(parentData, ps, i, DataKind), ClashesOf(parentTargets, ps, i, TargetKind),
                InTemplates(i, ps[i].own), NameClash(ps[i].name, NamesBefore(ps, i)), issue);
  }

  lemma StepDue(parentData: set<string>, parentTargets: set<string>, ps: seq<Profile>, i: nat, issue: WiringIssue)
    requires i < |ps|
    ensures StepsDue(parentData, parentTargets, ps, i + 1, issue) ==
      StepsDue(parentData, parentTargets, ps, i, issue) + Times(StepIssues(parentData, parentTargets, ps)[i], issue)
  {
    StepTimes(parentData, parentTargets, ps, i, issue);
    ClashesOfTimes(parentData, ps, i, DataKind, issue);
    ClashesOfTimes(parentTargets, ps, i, TargetKind, issue);
    OwnStep(ps, i, issue);
    NameClashTimes(ps, i, issue);
    if issue.DuplicateTemplate? {
      NameStep(ps, i, issue.name);
    }
  }

  lemma {:induction false} StepsTimes(parentData: set<string>, parentTargets: set<string>, ps: seq<Profile>, n: nat,
                                      issue: WiringIssue)
    requires n <= |ps|
    ensures Times(ConcatAll(StepIssues(parentData, parentTargets, ps)[..n]), issue) ==
      StepsDue(parentData, parentTargets, ps, n, issue)
  {
    if n > 0 {
      var i: nat := n - 1;
      var steps := StepIssues(parentData, parentTargets, ps);
      StepsTimes(parentData, parentTargets, ps, i, issue);
      ConcatAllStep(steps, i);
      TimesConcat(ConcatAll(steps[..i]), steps[i], issue);
      StepDue(parentData, parentTargets, ps, i, issue);
    }
  }

  /** How often an unsatisfied reference is due. */
  ghost function UnsatisfiedDue(kind: Kind, refs: seq<string>, exports: set<string>, parent: set<string>,
                                issue: WiringIssue): nat
  {
    if issue.NotSatisfied? && issue.kind == kind && issue.ref !in exports && issue.ref !in parent
    then Times(refs, issue.ref) else 0
  }

  lemma UnsatisfiedDueStep(kind: Kind, refs: seq<string>, exports: set<string>, parent: set<string>, ref: string,
                           issue: WiringIssue)
    ensures UnsatisfiedDue(kind, refs + [ref], exports, parent, issue) ==
      UnsatisfiedDue(kind, refs, exports, parent, issue)
      + Once(issue == NotSatisfied(kind, ref) && ref !in exports && ref !in parent)
  {
    if issue.NotSatisfied? {
      TimesConcat(refs, [ref], issue.ref);
    }
  }

  lemma UnsatisfiedStep(kind: Kind, refs: seq<string>, i: nat, exports: set<string>, parent: set<string>,
                        issue: WiringIssue)
    requires i < |refs|
    ensures Times(Unsatisfied(kind, refs, i + 1, exports, parent), issue) ==
      Times(Unsatisfied(kind, refs, i, exports, parent), issue)
      + Once(issue == NotSatisfied(kind, refs[i]) && refs[i] !in exports && refs[i] !in parent)
  {
    TimesConcat(Unsatisfied(kind, refs, i, exports, parent),
                if refs[i] !in exports && refs[i] !in parent then [NotSatisfied(kind, refs[i])] else [], issue);
  }

  lemma {:induction false} UnsatisfiedTimes(kind: Kind, refs: seq<string>, n: nat, exports: set<string>,
                                            parent: set<string>, issue: WiringIssue)
    requires n <= |refs|
    ensures Times(Unsatisfied(kind, refs, n, exports, parent), issue) ==
      UnsatisfiedDue(kind, refs[..n], exports, parent, issue)
  {
    if n > 0 {
      var i: nat := n - 1;
      UnsatisfiedTimes(kind, refs, i, exports, parent, issue);
      UnsatisfiedDueStep(kind, refs[..i], exports, parent, refs[i], issue);
      UnsatisfiedStep(kind, refs, i, exports, parent, issue);
      PrefixStep(refs, i);
    }
  }

  // ---------- Templates by themselves ----------

  ghost function TemplateDue(t: Template, issue: TemplateIssue): nat {
    match issue
    case TemplateNameRequired => Once(t.name == "")
    case TemplateNameInvalid => if t.name == "" then 0 else t.nameMessages
    case TemplateNameTooLong => Once(|t.name| > 52)
    case BlueprintRequired => Once(t.blueprintRef == "" && !t.filesystemGiven)
    case OfImport(inner) => Once(TemplateImportFault(t.imports, inner))
    case OfExport(inner) => Once(ExportFault(t.exports, inner))
  }

  lemma {:induction false} InvalidTimes(n: nat, issue: TemplateIssue)
    ensures Times(seq(n, _ => TemplateNameInvalid), issue) == if issue == TemplateNameInvalid then n else 0
  {
    if n > 0 {
      InvalidTimes(n - 1, issue);
      assert seq(n, _ => TemplateNameInvalid) == seq(n - 1, _ => TemplateNameInvalid) + [TemplateNameInvalid];
      TimesConcat(seq(n - 1, _ => TemplateNameInvalid), [TemplateNameInvalid], issue);
    }
  }

  lemma NameIssuesTimes(t: Template, issue: TemplateIssue)
    ensures Times(NameIssues(t), issue) ==
      if issue.TemplateNameRequired? || issue.TemplateNameInvalid? || issue.TemplateNameTooLong?
      then TemplateDue(t, issue) else 0
  {
    assert |"Inst."| == 5;
    if t.name != "" {
      InvalidTimes(t.nameMessages, issue);
      TimesConcat(seq(t.nameMessages, _ => TemplateNameInvalid),
                  if |t.name| > INSTALLATION_GENERATE_NAME_MAX_LENGTH - 1 then [TemplateNameTooLong] else [], issue);
    }
  }

  lemma OfImportTimes(issues: seq<Issue>, issue: TemplateIssue)
    ensures Times(OfImports(issues), issue) == if issue.OfImport? then Times(issues, issue.issue) else 0
  {
    if issue.OfImport? {
      TimesMapped(issues, OfImports(issues), x => OfImport(x), issue.issue);
    } else {
      TimesOfAbsent(OfImports(issues), issue);
    }
  }

  lemma OfExportTimes(issues: seq<Issue>, issue: TemplateIssue)
    ensures Times(OfExports(issues), issue) == if issue.OfExport? then Times(issues, issue.issue) else 0
  {
    if issue.OfExport? {
      TimesMapped(issues, OfExports(issues), x => OfExport(x), issue.issue);
    } else {
      TimesOfAbsent(OfExports(issues), issue);
    }
  }

  lemma OfImportsTimes(imports: Imports, issue: TemplateIssue)
    ensures Times(OfImports(TemplateImportIssues(imports)), issue) ==
      if issue.OfImport? then Once(TemplateImportFault(imports, issue.issue)) else 0
  {
    var issues := TemplateImportIssues(imports);
    if issue.OfImport? {
      TemplateImportIssuesExact(imports, issue.issue);
    }
    OfImportTimes(issues, issue);
  }

  lemma OfExportsTimes(t: Template, issue: TemplateIssue)
    ensures Times(OfExports(ExportIssues(t.exports)), issue) == if issue.OfExport? then TemplateDue(t, issue) else 0
  {
    OfExportTimes(ExportIssues(t.exports), issue);
    if issue.OfExport? {
      ExportIssuesExact(t.exports, issue.issue);
    }
  }

  lemma TemplateTimes(t: Template, issue: TemplateIssue)
    ensures Times(TemplateIssues(t), issue) == TemplateDue(t, issue)
  {
    var blueprint: seq<TemplateIssue> := if t.blueprintRef == "" && !t.filesystemGiven then [BlueprintRequired] else [];
    NameIssuesTimes(t, issue);
    OfImportsTimes(t.imports, issue);
    OfExportsTimes(t, issue);
    TimesOfFour(NameIssues(t), blueprint, OfImports(TemplateImportIssues(t.imports)),
                OfExports(ExportIssues(t.exports)), issue);
  }

  // ---------- The whole list ----------

  function Named(ts: seq<Template>, name: string): nat {
    if ts == [] then 0 else Named(ts[..|ts| - 1], name) + Once(ts[|ts| - 1].name == name)
  }

  lemma {:induction false} NamedTimes(ts: seq<Template>, names: seq<string>, name: string)
    requires |names| == |ts| && forall i :: 0 <= i < |ts| ==> names[i] == ts[i].name
    ensures Times(names, name) == Named(ts, name)
  {
    if names != [] {
      var i: nat := |names| - 1;
      NamedTimes(ts[..i], names[..i], name);
      assert names == names[..i] + [names[i]];
      TimesConcat(names[..i], [names[i]], name);
    }
  }

  /**
   How often an issue is due: every further export entry with a reference clashes with those before it, every entry
   clashes with an import of the parent, every import that neither provides is unsatisfied, every further template of
   a name is a duplicate, and every template has its own issues.
   */
  ghost function WiringDue(defs: seq<ImportDef>, ts: seq<Template>, issue: WiringIssue): nat {
    match issue
    case ExportedTwice(kind, ref) => Further(ExportedBy(ts, kind, ref))
    case ExportedByParent(kind, ref) => if ref in Parent(defs, kind) then ExportedBy(ts, kind, ref) else 0
    case NotSatisfied(kind, ref) =>
      if ref in Parent(defs, kind) || ExportedBy(ts, kind, ref) > 0 then 0 else ImportedBy(ts, kind, ref)
    case DuplicateTemplate(name) => if name == "" then 0 else Further(Named(ts, name))
    case InTemplate(index, own) => if index < |ts| then TemplateDue(ts[index], own) else 0
  }

  /** Nobody exports component descriptors. */
  lemma {:induction false} NoneExported(ts: seq<Template>, ref: string)
    ensures ExportedBy(ts, DescriptorKind, ref) == 0
  {
    if ts != [] {
      NoneExported(ts[..|ts| - 1], ref);
    }
  }

  lemma ClashesDueIs(defs: seq<ImportDef>, ts: seq<Template>, issue: WiringIssue)
    requires issue.ExportedTwice? || issue.ExportedByParent?
    ensures ClashesDue(Parent(defs, DataKind), Parent(defs, TargetKind), Profiles(ts), |ts|, issue) ==
      WiringDue(defs, ts, issue)
  {
    var ps := Profiles(ts);
    assert ExportsByTemplate(ps, DataKind)[..|ts|] == ExportsByTemplate(ps, DataKind);
    assert ExportsByTemplate(ps, TargetKind)[..|ts|] == ExportsByTemplate(ps, TargetKind);
    AllTimes(ts, issue.kind, issue.ref);
    NoneExported(ts, issue.ref);
  }

  lemma StepsDueIs(defs: seq<ImportDef>, ts: seq<Template>, issue: WiringIssue)
    ensures StepsDue(Parent(defs, DataKind), Parent(defs, TargetKind), Profiles(ts), |ts|, issue) ==
      if issue.NotSatisfied? then 0 else WiringDue(defs, ts, issue)
  {
    if issue.ExportedTwice? || issue.ExportedByParent? {
      ClashesDueIs(defs, ts, issue);
    } else if issue.DuplicateTemplate? {
      var names := ProfileNames(Profiles(ts));
      assert names[..|ts|] == names;
      NamedTimes(ts, names, issue.name);
    } else if issue.InTemplate? && issue.index < |ts| {
      TemplateTimes(ts[issue.index], issue.issue);
    }
  }

  lemma UnsatisfiedOfTimes(defs: seq<ImportDef>, ts: seq<Template>, kind: Kind, issue: WiringIssue)
    ensures Times(UnsatisfiedOf(Parent(defs, kind), Profiles(ts), kind), issue) ==
      if issue.NotSatisfied? && issue.kind == kind then WiringDue(defs, ts, issue) else 0
  {
    var refs, exports := AllImports(Profiles(ts), kind), AllExports(Profiles(ts), kind);
    UnsatisfiedTimes(kind, refs, |refs|, Elements(exports), Parent(defs, kind), issue);
    assert refs[..|refs|] == refs;
    if issue.NotSatisfied? {
      AllTimes(ts, kind, issue.ref);
      TimesOfAbsent(exports, issue.ref);
    }
  }

  /** Every issue is reported as often as it is due, and no other is. */
  lemma WiringIssuesExact(defs: seq<ImportDef>, ts: seq<Template>, issue: WiringIssue)
    ensures Times(WiringIssues(defs, ts), issue) == WiringDue(defs, ts, issue)
  {
    var ps := Profiles(ts);
    var data, targets := Parent(defs, DataKind), Parent(defs, TargetKind);
    var steps := StepIssues(data, targets, ps);
    StepsTimes(data, targets, ps, |ps|, issue);
    assert steps[..|ps|] == steps;
    StepsDueIs(defs, ts, issue);
    UnsatisfiedOfTimes(defs, ts, DataKind, issue);
    UnsatisfiedOfTimes(defs, ts, TargetKind, issue);
    UnsatisfiedOfTimes(defs, ts, DescriptorKind, issue);
    TimesOfFour(ConcatAll(steps), UnsatisfiedOf(data, ps, DataKind), UnsatisfiedOf(targets, ps, TargetKind),
                UnsatisfiedOf(Parent(defs, DescriptorKind), ps, DescriptorKind), issue);
  }
}
