/** How the sub-installations of a blueprint are wired: which references their imports make, and who provides them. */
module Wiring {
  import opened Basics
  import opened ConfigChecks
  import opened BlueprintDefinitions
  import opened NamedLists
  import opened InstallationImports

  /**
   `nameMessages` is the number of complaints the platform's check of the name as a DNS label makes; it is a
   parameter here.
   */
  datatype Template = Template(name: string, nameMessages: nat, blueprintRef: string, filesystemGiven: bool,
                               imports: Imports, exports: Exports)

  datatype TemplateIssue =
    | TemplateNameRequired
    | TemplateNameInvalid
    | TemplateNameTooLong
    | BlueprintRequired
    | OfImport(issue: Issue)
    | OfExport(issue: Issue)

  datatype Kind = DataKind | TargetKind | DescriptorKind

  datatype WiringIssue =
    | ExportedTwice(kind: Kind, ref: string)
    | ExportedByParent(kind: Kind, ref: string)
    | NotSatisfied(kind: Kind, ref: string)
    | DuplicateTemplate(name: string)
    | InTemplate(index: nat, issue: TemplateIssue)

  // ---------- What the parent provides ----------

  predicate ProvidesData(def: ImportDef) {
    if def.importType != "" then def.importType == DATA else def.schema.Some?
  }

  predicate ProvidesTarget(def: ImportDef) {
    if def.importType != "" then def.importType == TARGET || def.importType == TARGET_LIST
    else def.schema.None? && def.targetType != ""
  }

  predicate ProvidesDescriptor(def: ImportDef) {
    def.importType == COMPONENT_DESCRIPTOR || def.importType == COMPONENT_DESCRIPTOR_LIST
  }

  predicate Provides(def: ImportDef, kind: Kind) {
    match kind
    case DataKind => ProvidesData(def)
    case TargetKind => ProvidesTarget(def)
    case DescriptorKind => ProvidesDescriptor(def)
  }

  /** The names the top-level imports among the first `n` provide; conditional imports provide nothing. */
  function ParentNames(defs: seq<ImportDef>, n: nat, kind: Kind): set<string>
    requires n <= |defs|
  {
    set i | 0 <= i < n && Provides(defs[i], kind) :: defs[i].name
  }

  function Parent(defs: seq<ImportDef>, kind: Kind): set<string> {
    ParentNames(defs, |defs|, kind)
  }

  // ---------- What templates export ----------

  function DataExportRefs(t: Template): seq<string> {
    seq(|t.exports.data|, i requires 0 <= i < |t.exports.data| => t.exports.data[i].dataRef)
  }

  function TargetExportRefs(t: Template): seq<string> {
    seq(|t.exports.targets|, i requires 0 <= i < |t.exports.targets| => t.exports.targets[i].target)
  }

  // ---------- What templates import ----------

  function NonEmpty(s: string): seq<string> {
    if s == "" then [] else [s]
  }

  /** The references the validator collects from a target import: it looks at the first source only. */
  function CollectedTargets(imp: TargetImport): seq<string> {
    if imp.target != "" then [imp.target]
    else if imp.targets.Some? then imp.targets.value
    else NonEmpty(imp.targetListReference)
  }

  /** All references written in a target import. */
  function WrittenTargets(imp: TargetImport): seq<string> {
    NonEmpty(imp.target) + (if imp.targets.Some? then imp.targets.value else []) + NonEmpty(imp.targetListReference)
  }

  function ListRefs(list: seq<DescriptorData>, n: nat): seq<string>
    requires n <= |list|
  {
    if n == 0 then [] else ListRefs(list, n - 1) + NonEmpty(list[n - 1].dataRef)
  }

  function CollectedDescriptors(imp: DescriptorImport): seq<string> {
    if imp.dataRef != "" then [imp.dataRef]
    else if imp.list.Some? then ListRefs(imp.list.value, |imp.list.value|)
    else []
  }

  function WrittenDescriptors(imp: DescriptorImport): seq<string> {
    NonEmpty(imp.dataRef) + if imp.list.Some? then ListRefs(imp.list.value, |imp.list.value|) else []
  }

  function DataImportRefs(t: Template): seq<string> {
    seq(|t.imports.data|, i requires 0 <= i < |t.imports.data| => t.imports.data[i].dataRef)
  }

  function TargetImportRefs(imports: seq<TargetImport>): seq<seq<string>> {
    seq(|imports|, i requires 0 <= i < |imports| => CollectedTargets(imports[i]))
  }

  function DescriptorImportRefs(imports: seq<DescriptorImport>): seq<seq<string>> {
    seq(|imports|, i requires 0 <= i < |imports| => CollectedDescriptors(imports[i]))
  }

  // ---------- What is wrong with a template ----------

  const INSTALLATION_GENERATE_NAME_MAX_LENGTH: nat := 63 - |"Inst."| - 5

  function NameIssues(t: Template): seq<TemplateIssue> {
    if t.name == "" then [TemplateNameRequired]
    else
      seq(t.nameMessages, _ => TemplateNameInvalid)
      + if |t.name| > INSTALLATION_GENERATE_NAME_MAX_LENGTH - 1 then [TemplateNameTooLong] else []
  }

  function OfImports(issues: seq<Issue>): seq<TemplateIssue> {
    seq(|issues|, k requires 0 <= k < |issues| => OfImport(issues[k]))
  }

  function OfExports(issues: seq<Issue>): seq<TemplateIssue> {
    seq(|issues|, k requires 0 <= k < |issues| => OfExport(issues[k]))
  }

  /** What is wrong with a template by itself. */
  function TemplateIssues(t: Template): seq<TemplateIssue> {
    NameIssues(t)
    + (if t.blueprintRef == "" && !t.filesystemGiven then [BlueprintRequired] else [])
    + OfImports(TemplateImportIssues(t.imports)) + OfExports(ExportIssues(t.exports))
  }

  // ---------- What the wiring check looks at in a template ----------

  datatype Profile = Profile(
    name: string,
    dataExports: seq<string>,
    targetExports: seq<string>,
    dataImports: seq<string>,
    targetImports: seq<string>,
    descriptorImports: seq<string>,
    own: seq<TemplateIssue>)
  {
    function Exports(kind: Kind): seq<string> {
      match kind
      case DataKind => dataExports
      case TargetKind => targetExports
      case DescriptorKind => []
    }

    function Imports(kind: Kind): seq<string> {
      match kind
      case DataKind => dataImports
      case TargetKind => targetImports
      case DescriptorKind => descriptorImports
    }
  }

  function ProfileOf(t: Template): Profile {
    Profile(t.name, DataExportRefs(t), TargetExportRefs(t), DataImportRefs(t),
            ConcatAll(TargetImportRefs(t.imports.targets)),
            ConcatAll(DescriptorImportRefs(t.imports.componentDescriptors)),
            TemplateIssues(t))
  }

  function Profiles(ts: seq<Template>): seq<Profile> {
    seq(|ts|, i requires 0 <= i < |ts| => ProfileOf(ts[i]))
  }

  /** The profiles belong to the templates, one by one. */
  ghost predicate Fits(ts: seq<Template>, ps: seq<Profile>) {
    |ps| == |ts| && forall i {:trigger ProfileOf(ts[i])} :: 0 <= i < |ts| ==> ps[i] == ProfileOf(ts[i])
  }

  function ExportsByTemplate(ps: seq<Profile>, kind: Kind): seq<seq<string>> {
    seq(|ps|, i requires 0 <= i < |ps| => ps[i].Exports(kind))
  }

  /** All export entries of one kind, template after template. */
  function AllExports(ps: seq<Profile>, kind: Kind): seq<string> {
    ConcatAll(ExportsByTemplate(ps, kind))
  }

  function ImportsByTemplate(ps: seq<Profile>, kind: Kind): seq<seq<string>> {
    seq(|ps|, i requires 0 <= i < |ps| => ps[i].Imports(kind))
  }

  function AllImports(ps: seq<Profile>, kind: Kind): seq<string> {
    ConcatAll(ImportsByTemplate(ps, kind))
  }

  // ---------- What is wrong with the wiring ----------

  function InTemplates(index: nat, issues: seq<TemplateIssue>): seq<WiringIssue> {
    seq(|issues|, k requires 0 <= k < |issues| => InTemplate(index, issues[k]))
  }

  /** Exports that clash with an earlier export or with an import of the parent. */
  function Clashes(kind: Kind, refs: seq<string>, n: nat, exported: set<string>, parent: set<string>): seq<WiringIssue>
    requires n <= |refs|
  {
    if n == 0 then []
    else
      Clashes(kind, refs, n - 1, exported, parent)
      + (if refs[n - 1] in exported + Elements(refs[..n - 1]) then [ExportedTwice(kind, refs[n - 1])] else [])
      + (if refs[n - 1] in parent then [ExportedByParent(kind, refs[n - 1])] else [])
  }

  function ExportedBefore(ps: seq<Profile>, i: nat, kind: Kind): set<string>
    requires i <= |ps|
  {
    Elements(ConcatAll(ExportsByTemplate(ps, kind)[..i]))
  }

  function ClashesOf(parent: set<string>, ps: seq<Profile>, i: nat, kind: Kind): seq<WiringIssue>
    requires i < |ps|
  {
    Clashes(kind, ps[i].Exports(kind), |ps[i].Exports(kind)|, ExportedBefore(ps, i, kind), parent)
  }

  function NamesBefore(ps: seq<Profile>, i: nat): set<string>
    requires i <= |ps|
  {
    set k | 0 <= k < i :: ps[k].name
  }

  function NameClash(name: string, names: set<string>): seq<WiringIssue> {
    if name != "" && name in names then [DuplicateTemplate(name)] else []
  }

  /** What is found while the templates are gone through, template by template. */
  function StepIssues(parentData: set<string>, parentTargets: set<string>, ps: seq<Profile>): seq<seq<WiringIssue>> {
    seq(|ps|, i requires 0 <= i < |ps| =>
      ClashesOf(parentData, ps, i, DataKind) + ClashesOf(parentTargets, ps, i, TargetKind) + InTemplates(i, ps[i].own)
      + NameClash(ps[i].name, NamesBefore(ps, i)))
  }

  /** References among the first `n` that neither the parent nor an export satisfies. */
  function Unsatisfied(kind: Kind, refs: seq<string>, n: nat, exports: set<string>,
                       parent: set<string>): seq<WiringIssue>
    requires n <= |refs|
  {
    if n == 0 then []
    else
      Unsatisfied(kind, refs, n - 1, exports, parent)
      + if refs[n - 1] !in exports && refs[n - 1] !in parent then [NotSatisfied(kind, refs[n - 1])] else []
  }

  function UnsatisfiedOf(parent: set<string>, ps: seq<Profile>, kind: Kind): seq<WiringIssue> {
    var refs := AllImports(ps, kind);
    Unsatisfied(kind, refs, |refs|, Elements(AllExports(ps, kind)), parent)
  }

  function ProfileIssues(parentData: set<string>, parentTargets: set<string>, parentDescriptors: set<string>,
                         ps: seq<Profile>): seq<WiringIssue>
  {
    ConcatAll(StepIssues(parentData, parentTargets, ps))
    + UnsatisfiedOf(parentData, ps, DataKind) + UnsatisfiedOf(parentTargets, ps, TargetKind)
    + UnsatisfiedOf(parentDescriptors, ps, DescriptorKind)
  }

  function WiringIssues(defs: seq<ImportDef>, ts: seq<Template>): seq<WiringIssue> {
    ProfileIssues(Parent(defs, DataKind), Parent(defs, TargetKind), Parent(defs, DescriptorKind), Profiles(ts))
  }
}
