/**
 The imports and exports of installations and installation templates, and what is wrong with each of them by
 itself.
 */
module InstallationImports {
  import opened Basics
  import opened ConfigChecks
  import opened NamedLists

  datatype DescriptorReference = DescriptorReference(repositoryContext: Option<string>, componentName: string,
                                                     version: string)

  datatype DataImport = DataImport(name: string, dataRef: string, secretRef: Option<ObjectReference>,
                                   configMapRef: Option<ObjectReference>)

  /** A nil list of targets differs from an empty one. */
  datatype TargetImport = TargetImport(name: string, target: string, targets: Option<seq<string>>,
                                       targetListReference: string)

  datatype DescriptorData = DescriptorData(
    ref: Option<DescriptorReference>,
    secretRef: Option<ObjectReference>,
    configMapRef: Option<ObjectReference>,
    dataRef: string)

  datatype DescriptorImport = DescriptorImport(
    name: string,
    ref: Option<DescriptorReference>,
    secretRef: Option<ObjectReference>,
    configMapRef: Option<ObjectReference>,
    list: Option<seq<DescriptorData>>,
    dataRef: string)

  datatype Imports = Imports(data: seq<DataImport>, targets: seq<TargetImport>,
                             componentDescriptors: seq<DescriptorImport>)

  datatype DataExport = DataExport(name: string, dataRef: string)
  datatype TargetExport = TargetExport(name: string, target: string)
  datatype Exports = Exports(data: seq<DataExport>, targets: seq<TargetExport>)

  // ---------- The fields the exactly-one checks see ----------

  const DATA_REF := "DataRef"
  const SECRET_REF := "SecretRef"
  const CONFIG_MAP_REF := "ConfigMapRef"
  const REF := "Ref"
  const LIST := "List"
  const TARGET_FIELD := "Target"
  const TARGETS_FIELD := "Targets"
  const TARGET_LIST_REFERENCE := "TargetListReference"
  const NAME := "Name"

  function DataFields(imp: DataImport): seq<Field> {
    [Field(NAME, imp.name != ""), Field(DATA_REF, imp.dataRef != ""), Field(SECRET_REF, imp.secretRef.Some?),
     Field(CONFIG_MAP_REF, imp.configMapRef.Some?)]
  }

  function TargetFields(imp: TargetImport): seq<Field> {
    [Field(NAME, imp.name != ""), Field(TARGET_FIELD, imp.target != ""), Field(TARGETS_FIELD, imp.targets.Some?),
     Field(TARGET_LIST_REFERENCE, imp.targetListReference != "")]
  }

  function DescriptorFields(imp: DescriptorImport): seq<Field> {
    [Field(NAME, imp.name != ""), Field(REF, imp.ref.Some?), Field(SECRET_REF, imp.secretRef.Some?),
     Field(CONFIG_MAP_REF, imp.configMapRef.Some?),
     Field(LIST, imp.list.Some?), Field(DATA_REF, imp.dataRef != "")]
  }

  function DescriptorDataFields(cd: DescriptorData): seq<Field> {
    [Field(REF, cd.ref.Some?), Field(SECRET_REF, cd.secretRef.Some?), Field(CONFIG_MAP_REF, cd.configMapRef.Some?),
     Field(DATA_REF, cd.dataRef != "")]
  }

  // ---------- What is wrong with one entry ----------

  function When(condition: bool, problem: Problem): seq<Problem> {
    if condition then [problem] else []
  }

  function OneSourceProblems(fields: seq<Field>, configs: seq<string>): seq<Problem> {
    When(OneOfVerdict(fields, configs) != ExactlyOne, NotExactlyOneSource(OneOfVerdict(fields, configs)))
  }

  function ReferenceProblems(or: Option<ObjectReference>, field: ReferenceField): seq<Problem> {
    if or.None? then []
    else
      When(or.value.name == "", ReferenceNameRequired(field))
      + When(or.value.namespace == "", ReferenceNamespaceRequired(field))
  }

  const DATA_SOURCES := [DATA_REF, SECRET_REF, CONFIG_MAP_REF]
  const TARGET_SOURCES := [TARGET_FIELD, TARGETS_FIELD, TARGET_LIST_REFERENCE]
  const DESCRIPTOR_SOURCES := [REF, CONFIG_MAP_REF, SECRET_REF, LIST]
  const ELEMENT_SOURCES := [REF, CONFIG_MAP_REF, SECRET_REF]
  const TEMPLATE_DESCRIPTOR_SOURCES := [DATA_REF, LIST]

  function DataProblems(imp: DataImport): seq<Problem> {
    OneSourceProblems(DataFields(imp), DATA_SOURCES) + ReferenceProblems(imp.secretRef, SecretRef)
    + ReferenceProblems(imp.configMapRef, ConfigMapRef)
    + When(imp.name == "", NameRequired)
  }

  function EmptyTargets(targets: seq<string>, n: nat): seq<Problem>
    requires n <= |targets|
  {
    if n == 0 then [] else EmptyTargets(targets, n - 1) + When(targets[n - 1] == "", EmptyTarget(n - 1))
  }

  function TargetProblems(imp: TargetImport): seq<Problem> {
    When(imp.name == "", NameRequired) + OneSourceProblems(TargetFields(imp), TARGET_SOURCES)
    + if imp.targets.Some? then EmptyTargets(imp.targets.value, |imp.targets.value|) else []
  }

  function Inside(element: nat, problems: seq<Problem>): seq<Problem> {
    seq(|problems|, k requires 0 <= k < |problems| => InList(element, problems[k]))
  }

  function ElementProblems(cd: DescriptorData): seq<Problem> {
    OneSourceProblems(DescriptorDataFields(cd), ELEMENT_SOURCES) + ReferenceProblems(cd.configMapRef, ConfigMapRef)
    + ReferenceProblems(cd.secretRef, SecretRef)
    + When(cd.dataRef != "", DataRefForbidden)
  }

  /** The problems of the first `n` elements of a list, given those of each. */
  function Nested(problems: seq<seq<Problem>>, n: nat): seq<Problem>
    requires n <= |problems|
  {
    if n == 0 then [] else Nested(problems, n - 1) + Inside(n - 1, problems[n - 1])
  }

  function EachElement(list: seq<DescriptorData>): seq<seq<Problem>> {
    seq(|list|, k requires 0 <= k < |list| => ElementProblems(list[k]))
  }

  function ElementsProblems(list: seq<DescriptorData>): seq<Problem> {
    Nested(EachElement(list), |list|)
  }

  function DescriptorProblems(imp: DescriptorImport): seq<Problem> {
    When(imp.name == "", NameRequired) + OneSourceProblems(DescriptorFields(imp), DESCRIPTOR_SOURCES)
    + ReferenceProblems(imp.configMapRef, ConfigMapRef) + ReferenceProblems(imp.secretRef, SecretRef)
    + When(imp.dataRef != "", DataRefForbidden)
    + if imp.list.Some? then ElementsProblems(imp.list.value) else []
  }

  // In a template, references into the cluster are forbidden, and data comes from the parent or from a sibling.

  function TemplateDataProblems(imp: DataImport): seq<Problem> {
    When(imp.dataRef == "", DataRefRequired) + When(imp.secretRef.Some?, SecretForbidden)
    + When(imp.configMapRef.Some?, ConfigMapForbidden)
    + When(imp.name == "", NameRequired)
  }

  function TemplateElementProblems(cd: DescriptorData): seq<Problem> {
    When(cd.configMapRef.Some?, ConfigMapForbidden) + When(cd.secretRef.Some?, SecretForbidden)
    + When(cd.dataRef == "", DataRefRequired)
  }

  function EachTemplateElement(list: seq<DescriptorData>): seq<seq<Problem>> {
    seq(|list|, k requires 0 <= k < |list| => TemplateElementProblems(list[k]))
  }

  function TemplateElementsProblems(list: seq<DescriptorData>): seq<Problem> {
    Nested(EachTemplateElement(list), |list|)
  }

  function TemplateDescriptorProblems(imp: DescriptorImport): seq<Problem> {
    When(imp.name == "", NameRequired) + OneSourceProblems(DescriptorFields(imp), TEMPLATE_DESCRIPTOR_SOURCES)
    + When(imp.configMapRef.Some?, ConfigMapForbidden) + When(imp.secretRef.Some?, SecretForbidden)
    + if imp.list.Some? then TemplateElementsProblems(imp.list.value) else []
  }

  function DataExportProblems(exp: DataExport): seq<Problem> {
    When(exp.dataRef == "", DataRefRequired) + When(exp.name == "", NameRequired)
  }

  function TargetExportProblems(exp: TargetExport): seq<Problem> {
    When(exp.target == "", TargetRequired) + When(exp.name == "", NameRequired)
  }

  // ---------- The lists ----------

  // A data import or an export without a name is skipped; a target or descriptor import enters even an empty name.

  function DataEntries(imports: seq<DataImport>): seq<Entry> {
    seq(|imports|, i requires 0 <= i < |imports| =>
      Entry(imports[i].name, DataProblems(imports[i]), imports[i].name != ""))
  }

  function TargetEntries(imports: seq<TargetImport>): seq<Entry> {
    seq(|imports|, i requires 0 <= i < |imports| => Entry(imports[i].name, TargetProblems(imports[i]), true))
  }

  function DescriptorEntries(imports: seq<DescriptorImport>): seq<Entry> {
    seq(|imports|, i requires 0 <= i < |imports| => Entry(imports[i].name, DescriptorProblems(imports[i]), true))
  }

  function TemplateDataEntries(imports: seq<DataImport>): seq<Entry> {
    seq(|imports|, i requires 0 <= i < |imports| =>
      Entry(imports[i].name, TemplateDataProblems(imports[i]), imports[i].name != ""))
  }

  function TemplateDescriptorEntries(imports: seq<DescriptorImport>): seq<Entry> {
    seq(|imports|, i requires 0 <= i < |imports| =>
      Entry(imports[i].name, TemplateDescriptorProblems(imports[i]), true))
  }

  function DataExportEntries(exports: seq<DataExport>): seq<Entry> {
    seq(|exports|, i requires 0 <= i < |exports| =>
      Entry(exports[i].name, DataExportProblems(exports[i]), exports[i].name != ""))
  }

  function TargetExportEntries(exports: seq<TargetExport>): seq<Entry> {
    seq(|exports|, i requires 0 <= i < |exports| =>
      Entry(exports[i].name, TargetExportProblems(exports[i]), exports[i].name != ""))
  }

  function ListCheck(section: Section, entries: seq<Entry>, seen: set<string>): seq<Issue> {
    ConcatAll(ListIssues(section, entries, seen))
  }

  function SeenAfter(entries: seq<Entry>, seen: set<string>): set<string> {
    SeenBefore(entries, |entries|, seen)
  }

  /** Three lists, one name set. */
  function ThreeLists(data: seq<Entry>, targets: seq<Entry>, descriptors: seq<Entry>): seq<Issue> {
    var afterData := SeenAfter(data, {});
    ListCheck(DataImports, data, {}) + ListCheck(TargetImports, targets, afterData)
    + ListCheck(DescriptorImports, descriptors, SeenAfter(targets, afterData))
  }

  function ImportIssues(imports: Imports): seq<Issue> {
    ThreeLists(DataEntries(imports.data), TargetEntries(imports.targets),
               DescriptorEntries(imports.componentDescriptors))
  }

  function TemplateImportIssues(imports: Imports): seq<Issue> {
    ThreeLists(TemplateDataEntries(imports.data), TargetEntries(imports.targets),
               TemplateDescriptorEntries(imports.componentDescriptors))
  }

  function ExportIssues(exports: Exports): seq<Issue> {
    ListCheck(DataExports, DataExportEntries(exports.data), {})
      + ListCheck(TargetExports, TargetExportEntries(exports.targets), {})
  }
}
