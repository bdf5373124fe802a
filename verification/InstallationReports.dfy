/** Which issue is reported for which fault of an installation's imports and exports: each fault once, nothing else. */
module InstallationReports {
  import opened Basics
  import opened Counting
  import opened ConfigChecks
  import opened NamedLists
  import opened InstallationImports
  import opened InstallationImportLaws

  // ---------- Faults of one import or export ----------

  /** The verdict on how many of some sources are given, unless it is one. */
  ghost predicate SourceFault(given: seq<bool>, verdict: OneOf) {
    match verdict
    case NoneSet => Times(given, true) == 0
    case SeveralSet => Times(given, true) >= 2
    case ExactlyOne => false
  }

  /** The reference behind a field. */
  function Behind(field: ReferenceField, secretRef: Option<ObjectReference>,
                  configMapRef: Option<ObjectReference>): Option<ObjectReference>
  {
    if field == SecretRef then secretRef else configMapRef
  }

  predicate NameMissing(or: Option<ObjectReference>) {
    or.Some? && or.value.name == ""
  }

  predicate NamespaceMissing(or: Option<ObjectReference>) {
    or.Some? && or.value.namespace == ""
  }

  ghost predicate DataFault(imp: DataImport, problem: Problem) {
    match problem
    case NameRequired => imp.name == ""
    case NotExactlyOneSource(v) => SourceFault([imp.dataRef != "", imp.secretRef.Some?, imp.configMapRef.Some?], v)
    case ReferenceNameRequired(f) => NameMissing(Behind(f, imp.secretRef, imp.configMapRef))
    case ReferenceNamespaceRequired(f) => NamespaceMissing(Behind(f, imp.secretRef, imp.configMapRef))
    case _ => false
  }

  ghost predicate TargetFault(imp: TargetImport, problem: Problem) {
    match problem
    case NameRequired => imp.name == ""
    case NotExactlyOneSource(v) => SourceFault([imp.target != "", imp.targets.Some?, imp.targetListReference != ""], v)
    case EmptyTarget(k) => imp.targets.Some? && k < |imp.targets.value| && imp.targets.value[k] == ""
    case _ => false
  }

  ghost predicate ElementFault(cd: DescriptorData, problem: Problem) {
    match problem
    case NotExactlyOneSource(v) => SourceFault([cd.ref.Some?, cd.secretRef.Some?, cd.configMapRef.Some?], v)
    case ReferenceNameRequired(f) => NameMissing(Behind(f, cd.secretRef, cd.configMapRef))
    case ReferenceNamespaceRequired(f) => NamespaceMissing(Behind(f, cd.secretRef, cd.configMapRef))
    case DataRefForbidden => cd.dataRef != ""
    case _ => false
  }

  ghost predicate DescriptorFault(imp: DescriptorImport, problem: Problem) {
    match problem
    case NameRequired => imp.name == ""
    case NotExactlyOneSource(v) =>
      SourceFault([imp.ref.Some?, imp.secretRef.Some?, imp.configMapRef.Some?, imp.list.Some?], v)
    case ReferenceNameRequired(f) => NameMissing(Behind(f, imp.secretRef, imp.configMapRef))
    case ReferenceNamespaceRequired(f) => NamespaceMissing(Behind(f, imp.secretRef, imp.configMapRef))
    case DataRefForbidden => imp.dataRef != ""
    case InList(k, inner) => imp.list.Some? && k < |imp.list.value| && ElementFault(imp.list.value[k], inner)
    case _ => false
  }

  ghost predicate TemplateDataFault(imp: DataImport, problem: Problem) {
    match problem
    case NameRequired => imp.name == ""
    case DataRefRequired => imp.dataRef == ""
    case SecretForbidden => imp.secretRef.Some?
    case ConfigMapForbidden => imp.configMapRef.Some?
    case _ => false
  }

  ghost predicate TemplateElementFault(cd: DescriptorData, problem: Problem) {
    match problem
    case DataRefRequired => cd.dataRef == ""
    case SecretForbidden => cd.secretRef.Some?
    case ConfigMapForbidden => cd.configMapRef.Some?
    case _ => false
  }

  ghost predicate TemplateDescriptorFault(imp: DescriptorImport, problem: Problem) {
    match problem
    case NameRequired => imp.name == ""
    case NotExactlyOneSource(v) => SourceFault([imp.list.Some?, imp.dataRef != ""], v)
    case SecretForbidden => imp.secretRef.Some?
    case ConfigMapForbidden => imp.configMapRef.Some?
    case InList(k, inner) => imp.list.Some? && k < |imp.list.value| && TemplateElementFault(imp.list.value[k], inner)
    case _ => false
  }

  // ---------- How often a problem of one entry is reported ----------

  lemma WhenTimes(condition: bool, due: Problem, problem: Problem)
    ensures Times(When(condition, due), problem) == Once(condition && problem == due)
  {
  }

  /** How often a problem of the reference in a field is due. */
  function ReferenceDue(or: Option<ObjectReference>, field: ReferenceField, problem: Problem): nat {
    match problem
    case ReferenceNameRequired(f) => Once(f == field && NameMissing(or))
    case ReferenceNamespaceRequired(f) => Once(f == field && NamespaceMissing(or))
    case _ => 0
  }

  lemma ReferenceTimes(or: Option<ObjectReference>, field: ReferenceField, problem: Problem)
    ensures Times(ReferenceProblems(or, field), problem) == ReferenceDue(or, field, problem)
  {
    if or.Some? {
      var name := When(or.value.name == "", ReferenceNameRequired(field));
      var namespace := When(or.value.namespace == "", ReferenceNamespaceRequired(field));
      TimesConcat(name, namespace, problem);
      WhenTimes(or.value.name == "", ReferenceNameRequired(field), problem);
      WhenTimes(or.value.namespace == "", ReferenceNamespaceRequired(field), problem);
    }
  }

  /** The verdict counts the given sources. */
  lemma {:induction false} SetFieldsGiven(fields: seq<Field>, configs: seq<string>)
    ensures |SetFields(fields, configs)| == Times(Choices(fields, configs), true)
  {
    if fields != [] {
      var i: nat := |fields| - 1;
      SetFieldsGiven(fields[..i], configs);
      var last := fields[i].name in configs && fields[i].isSet;
      assert Choices(fields, configs) == Choices(fields[..i], configs) + [last];
      TimesConcat(Choices(fields[..i], configs), [last], true);
    }
  }

  lemma SourceTimes(fields: seq<Field>, configs: seq<string>, given: seq<bool>, problem: Problem)
    requires Times(Choices(fields, configs), true) == Times(given, true)
    ensures Times(OneSourceProblems(fields, configs), problem) ==
      Once(problem.NotExactlyOneSource? && SourceFault(given, problem.verdict))
  {
    SetFieldsGiven(fields, configs);
    var verdict := OneOfVerdict(fields, configs);
    WhenTimes(verdict != ExactlyOne, NotExactlyOneSource(verdict), problem);
  }

  lemma UngivenFirst(given: seq<bool>)
    ensures Times([false] + given, true) == Times(given, true)
  {
    TimesConcat([false], given, true);
  }

  lemma UngivenLast(given: seq<bool>)
    ensures Times(given + [false], true) == Times(given, true)
  {
    TimesConcat(given, [false], true);
  }

  /** How often a problem of the two references of an import is due. */
  function ReferencesDue(secretRef: Option<ObjectReference>, configMapRef: Option<ObjectReference>,
                         problem: Problem): nat
  {
    match problem
    case ReferenceNameRequired(f) => Once(NameMissing(Behind(f, secretRef, configMapRef)))
    case ReferenceNamespaceRequired(f) => Once(NamespaceMissing(Behind(f, secretRef, configMapRef)))
    case _ => 0
  }

  lemma ReferencesSum(secretRef: Option<ObjectReference>, configMapRef: Option<ObjectReference>, problem: Problem)
    ensures ReferenceDue(secretRef, SecretRef, problem) + ReferenceDue(configMapRef, ConfigMapRef, problem) ==
      ReferencesDue(secretRef, configMapRef, problem)
  {
  }

  lemma ReferencesTimes(secretRef: Option<ObjectReference>, configMapRef: Option<ObjectReference>, problem: Problem)
    ensures Times(ReferenceProblems(secretRef, SecretRef), problem)
      + Times(ReferenceProblems(configMapRef, ConfigMapRef), problem) == ReferencesDue(secretRef, configMapRef, problem)
  {
    ReferenceTimes(secretRef, SecretRef, problem);
    ReferenceTimes(configMapRef, ConfigMapRef, problem);
    ReferencesSum(secretRef, configMapRef, problem);
  }

  lemma DataSourceTimes(imp: DataImport, problem: Problem)
    ensures Times(OneSourceProblems(DataFields(imp), DATA_SOURCES), problem) ==
      Once(problem.NotExactlyOneSource?
           && SourceFault([imp.dataRef != "", imp.secretRef.Some?, imp.configMapRef.Some?], problem.verdict))
  {
    var given := [imp.dataRef != "", imp.secretRef.Some?, imp.configMapRef.Some?];
    DataChoices(imp);
    UngivenFirst(given);
    SourceTimes(DataFields(imp), DATA_SOURCES, given, problem);
  }

  lemma DataSum(imp: DataImport, problem: Problem)
    ensures Times(DataProblems(imp), problem) ==
      Times(OneSourceProblems(DataFields(imp), DATA_SOURCES), problem)
      + ReferencesDue(imp.secretRef, imp.configMapRef, problem) + Once(imp.name == "" && problem == NameRequired)
  {
    ReferencesTimes(imp.secretRef, imp.configMapRef, problem);
    WhenTimes(imp.name == "", NameRequired, problem);
    TimesOfFour(OneSourceProblems(DataFields(imp), DATA_SOURCES), ReferenceProblems(imp.secretRef, SecretRef),
                ReferenceProblems(imp.configMapRef, ConfigMapRef), When(imp.name == "", NameRequired), problem);
  }

  lemma DataTimes(imp: DataImport, problem: Problem)
    ensures Times(DataProblems(imp), problem) == Once(DataFault(imp, problem))
  {
    DataSum(imp, problem);
    DataSourceTimes(imp, problem);
  }

  lemma {:induction false} EmptyTargetTimes(targets: seq<string>, n: nat, problem: Problem)
    requires n <= |targets|
    ensures Times(EmptyTargets(targets, n), problem) ==
      Once(problem.EmptyTarget? && problem.position < n && targets[problem.position] == "")
  {
    if n > 0 {
      var i: nat := n - 1;
      EmptyTargetTimes(targets, i, problem);
      TimesConcat(EmptyTargets(targets, i), When(targets[i] == "", EmptyTarget(i)), problem);
      WhenTimes(targets[i] == "", EmptyTarget(i), problem);
    }
  }

  lemma TargetSourceTimes(imp: TargetImport, problem: Problem)
    ensures Times(OneSourceProblems(TargetFields(imp), TARGET_SOURCES), problem) ==
      Once(problem.NotExactlyOneSource?
           && SourceFault([imp.target != "", imp.targets.Some?, imp.targetListReference != ""], problem.verdict))
  {
    var given := [imp.target != "", imp.targets.Some?, imp.targetListReference != ""];
    TargetChoices(imp);
    UngivenFirst(given);
    SourceTimes(TargetFields(imp), TARGET_SOURCES, given, problem);
  }

  lemma TargetSum(imp: TargetImport, problem: Problem)
    ensures Times(TargetProblems(imp), problem) ==
      Once(imp.name == "" && problem == NameRequired)
      + Times(OneSourceProblems(TargetFields(imp), TARGET_SOURCES), problem)
      + Once(problem.EmptyTarget? && imp.targets.Some? && problem.position < |imp.targets.value|
             && imp.targets.value[problem.position] == "")
  {
    var name, source := When(imp.name == "", NameRequired), OneSourceProblems(TargetFields(imp), TARGET_SOURCES);
    var empty := if imp.targets.Some? then EmptyTargets(imp.targets.value, |imp.targets.value|) else [];
    WhenTimes(imp.name == "", NameRequired, problem);
    if imp.targets.Some? {
      EmptyTargetTimes(imp.targets.value, |imp.targets.value|, problem);
    }
    TimesConcat(name, source, problem);
    TimesConcat(name + source, empty, problem);
  }

  lemma TargetTimes(imp: TargetImport, problem: Problem)
    ensures Times(TargetProblems(imp), problem) == Once(TargetFault(imp, problem))
  {
    TargetSum(imp, problem);
    TargetSourceTimes(imp, problem);
  }

  lemma ElementSourceTimes(cd: DescriptorData, problem: Problem)
    ensures Times(OneSourceProblems(DescriptorDataFields(cd), ELEMENT_SOURCES), problem) ==
      Once(problem.NotExactlyOneSource?
           && SourceFault([cd.ref.Some?, cd.secretRef.Some?, cd.configMapRef.Some?], problem.verdict))
  {
    var given := [cd.ref.Some?, cd.secretRef.Some?, cd.configMapRef.Some?];
    ElementChoices(cd);
    UngivenLast(given);
    SourceTimes(DescriptorDataFields(cd), ELEMENT_SOURCES, given, problem);
  }

  lemma ElementSum(cd: DescriptorData, problem: Problem)
    ensures Times(ElementProblems(cd), problem) ==
      Times(OneSourceProblems(DescriptorDataFields(cd), ELEMENT_SOURCES), problem)
      + ReferencesDue(cd.secretRef, cd.configMapRef, problem) + Once(cd.dataRef != "" && problem == DataRefForbidden)
  {
    ReferencesTimes(cd.secretRef, cd.configMapRef, problem);
    WhenTimes(cd.dataRef != "", DataRefForbidden, problem);
    TimesOfFour(OneSourceProblems(DescriptorDataFields(cd), ELEMENT_SOURCES),
                ReferenceProblems(cd.configMapRef, ConfigMapRef), ReferenceProblems(cd.secretRef, SecretRef),
                When(cd.dataRef != "", DataRefForbidden), problem);
  }

  lemma ElementCases(cd: DescriptorData, problem: Problem)
    ensures Once(ElementFault(cd, problem)) ==
      Once(problem.NotExactlyOneSource?
           && SourceFault([cd.ref.Some?, cd.secretRef.Some?, cd.configMapRef.Some?], problem.verdict))
      + ReferencesDue(cd.secretRef, cd.configMapRef, problem) + Once(cd.dataRef != "" && problem == DataRefForbidden)
  {
  }

  lemma ElementTimes(cd: DescriptorData, problem: Problem)
    ensures Times(ElementProblems(cd), problem) == Once(ElementFault(cd, problem))
  {
    ElementSum(cd, problem);
    ElementSourceTimes(cd, problem);
    ElementCases(cd, problem);
  }

  lemma InsideTimes(k: nat, problems: seq<Problem>, problem: Problem)
    ensures Times(Inside(k, problems), problem) ==
      if problem.InList? && problem.element == k then Times(problems, problem.problem) else 0
  {
    if problem.InList? && problem.element == k {
      TimesMapped(problems, Inside(k, problems), p => InList(k, p), problem.problem);
    } else {
      TimesOfAbsent(Inside(k, problems), problem);
    }
  }

  lemma {:induction false} NestedTimes(problems: seq<seq<Problem>>, n: nat, problem: Problem)
    requires n <= |problems|
    ensures Times(Nested(problems, n), problem) ==
      if problem.InList? && problem.element < n then Times(problems[problem.element], problem.problem) else 0
  {
    if n > 0 {
      var i: nat := n - 1;
      NestedTimes(problems, i, problem);
      TimesConcat(Nested(problems, i), Inside(i, problems[i]), problem);
      InsideTimes(i, problems[i], problem);
    }
  }

  lemma ListTimes(list: seq<DescriptorData>, problem: Problem)
    ensures Times(ElementsProblems(list), problem) ==
      Once(problem.InList? && problem.element < |list| && ElementFault(list[problem.element], problem.problem))
  {
    NestedTimes(EachElement(list), |list|, problem);
    if problem.InList? && problem.element < |list| {
      ElementTimes(list[problem.element], problem.problem);
    }
  }

  lemma InListTimes(imp: DescriptorImport, problem: Problem)
    ensures Times(if imp.list.Some? then ElementsProblems(imp.list.value) else [], problem) ==
      Once(problem.InList? && imp.list.Some? && problem.element < |imp.list.value|
           && ElementFault(imp.list.value[problem.element], problem.problem))
  {
    if imp.list.Some? {
      ListTimes(imp.list.value, problem);
    }
  }

  lemma DescriptorSum(imp: DescriptorImport, problem: Problem)
    ensures Times(DescriptorProblems(imp), problem) ==
      Once(imp.name == "" && problem == NameRequired)
      + Times(OneSourceProblems(DescriptorFields(imp), DESCRIPTOR_SOURCES), problem)
      + ReferencesDue(imp.secretRef, imp.configMapRef, problem) + Once(imp.dataRef != "" && problem == DataRefForbidden)
      + Times(if imp.list.Some? then ElementsProblems(imp.list.value) else [], problem)
  {
    var name := When(imp.name == "", NameRequired);
    var source := OneSourceProblems(DescriptorFields(imp), DESCRIPTOR_SOURCES);
    var configMap := ReferenceProblems(imp.configMapRef, ConfigMapRef);
    var secret := ReferenceProblems(imp.secretRef, SecretRef);
    var dataRef := When(imp.dataRef != "", DataRefForbidden);
    var inside := if imp.list.Some? then ElementsProblems(imp.list.value) else [];
    ReferencesTimes(imp.secretRef, imp.configMapRef, problem);
    WhenTimes(imp.name == "", NameRequired, problem);
    WhenTimes(imp.dataRef != "", DataRefForbidden, problem);
    TimesOfSix(name, source, configMap, secret, dataRef, inside, problem);
  }

  lemma DescriptorGiven(imp: DescriptorImport)
    ensures Times(Choices(DescriptorFields(imp), DESCRIPTOR_SOURCES), true) ==
      Times([imp.ref.Some?, imp.secretRef.Some?, imp.configMapRef.Some?, imp.list.Some?], true)
  {
    var given := [imp.ref.Some?, imp.secretRef.Some?, imp.configMapRef.Some?, imp.list.Some?];
    DescriptorChoices(imp);
    UngivenFirst(given + [false]);
    UngivenLast(given);
  }

  lemma DescriptorSourceTimes(imp: DescriptorImport, problem: Problem)
    ensures Times(OneSourceProblems(DescriptorFields(imp), DESCRIPTOR_SOURCES), problem) ==
      Once(problem.NotExactlyOneSource?
           && SourceFault([imp.ref.Some?, imp.secretRef.Some?, imp.configMapRef.Some?, imp.list.Some?],
                          problem.verdict))
  {
    DescriptorGiven(imp);
    SourceTimes(DescriptorFields(imp), DESCRIPTOR_SOURCES,
                [imp.ref.Some?, imp.secretRef.Some?, imp.configMapRef.Some?, imp.list.Some?], problem);
  }

  /** The problems of an import are of different kinds. */
  lemma DescriptorCases(imp: DescriptorImport, problem: Problem)
    ensures Once(DescriptorFault(imp, problem)) ==
      Once(imp.name == "" && problem == NameRequired)
      + Once(problem.NotExactlyOneSource?
             && SourceFault([imp.ref.Some?, imp.secretRef.Some?, imp.configMapRef.Some?, imp.list.Some?],
                            problem.verdict))
      + ReferencesDue(imp.secretRef, imp.configMapRef, problem) + Once(imp.dataRef != "" && problem == DataRefForbidden)
      + Once(problem.InList? && imp.list.Some? && problem.element < |imp.list.value|
             && ElementFault(imp.list.value[problem.element], problem.problem))
  {
  }

  lemma DescriptorTimes(imp: DescriptorImport, problem: Problem)
    ensures Times(DescriptorProblems(imp), problem) == Once(DescriptorFault(imp, problem))
  {
    DescriptorSum(imp, problem);
    DescriptorSourceTimes(imp, problem);
    InListTimes(imp, problem);
    DescriptorCases(imp, problem);
  }

  lemma TemplateDataCases(imp: DataImport, problem: Problem)
    ensures Once(TemplateDataFault(imp, problem)) ==
      Once(imp.dataRef == "" && problem == DataRefRequired) + Once(imp.secretRef.Some? && problem == SecretForbidden)
      + Once(imp.configMapRef.Some? && problem == ConfigMapForbidden) + Once(imp.name == "" && problem == NameRequired)
  {
  }

  lemma TemplateDataTimes(imp: DataImport, problem: Problem)
    ensures Times(TemplateDataProblems(imp), problem) == Once(TemplateDataFault(imp, problem))
  {
    var dataRef, name := When(imp.dataRef == "", DataRefRequired), When(imp.name == "", NameRequired);
    var secret := When(imp.secretRef.Some?, SecretForbidden);
    var configMap := When(imp.configMapRef.Some?, ConfigMapForbidden);
    WhenTimes(imp.dataRef == "", DataRefRequired, problem);
    WhenTimes(imp.secretRef.Some?, SecretForbidden, problem);
    WhenTimes(imp.configMapRef.Some?, ConfigMapForbidden, problem);
    WhenTimes(imp.name == "", NameRequired, problem);
    TimesOfFour(dataRef, secret, configMap, name, problem);
    TemplateDataCases(imp, problem);
  }

  lemma TemplateElementTimes(cd: DescriptorData, problem: Problem)
    ensures Times(TemplateElementProblems(cd), problem) == Once(TemplateElementFault(cd, problem))
  {
    var configMap, secret := When(cd.configMapRef.Some?, ConfigMapForbidden), When(cd.secretRef.Some?, SecretForbidden);
    WhenTimes(cd.configMapRef.Some?, ConfigMapForbidden, problem);
    WhenTimes(cd.secretRef.Some?, SecretForbidden, problem);
    WhenTimes(cd.dataRef == "", DataRefRequired, problem);
    TimesConcat(configMap, secret, problem);
    TimesConcat(configMap + secret, When(cd.dataRef == "", DataRefRequired), problem);
  }

  lemma TemplateListTimes(list: seq<DescriptorData>, problem: Problem)
    ensures Times(TemplateElementsProblems(list), problem) ==
      Once(problem.InList? && problem.element < |list| && TemplateElementFault(list[problem.element], problem.problem))
  {
    NestedTimes(EachTemplateElement(list), |list|, problem);
    if problem.InList? && problem.element < |list| {
      TemplateElementTimes(list[problem.element], problem.problem);
    }
  }

  lemma TemplateDescriptorGiven(imp: DescriptorImport)
    ensures Times(Choices(DescriptorFields(imp), TEMPLATE_DESCRIPTOR_SOURCES), true) ==
      Times([imp.list.Some?, imp.dataRef != ""], true)
  {
    var given := [imp.list.Some?, imp.dataRef != ""];
    TemplateChoices(imp);
    UngivenFirst([false] + ([false] + ([false] + given)));
    UngivenFirst([false] + ([false] + given));
    UngivenFirst([false] + given);
    UngivenFirst(given);
  }

  lemma TemplateInListTimes(imp: DescriptorImport, problem: Problem)
    ensures Times(if imp.list.Some? then TemplateElementsProblems(imp.list.value) else [], problem) ==
      Once(problem.InList? && imp.list.Some? && problem.element < |imp.list.value|
           && TemplateElementFault(imp.list.value[problem.element], problem.problem))
  {
    if imp.list.Some? {
      TemplateListTimes(imp.list.value, problem);
    }
  }

  lemma TemplateDescriptorSum(imp: DescriptorImport, problem: Problem)
    ensures Times(TemplateDescriptorProblems(imp), problem) ==
      Once(imp.name == "" && problem == NameRequired)
      + Times(OneSourceProblems(DescriptorFields(imp), TEMPLATE_DESCRIPTOR_SOURCES), problem)
      + Once(imp.configMapRef.Some? && problem == ConfigMapForbidden)
      + Once(imp.secretRef.Some? && problem == SecretForbidden)
      + Times(if imp.list.Some? then TemplateElementsProblems(imp.list.value) else [], problem)
  {
    var name := When(imp.name == "", NameRequired);
    var source := OneSourceProblems(DescriptorFields(imp), TEMPLATE_DESCRIPTOR_SOURCES);
    var configMap := When(imp.configMapRef.Some?, ConfigMapForbidden);
    var secret := When(imp.secretRef.Some?, SecretForbidden);
    var inside := if imp.list.Some? then TemplateElementsProblems(imp.list.value) else [];
    WhenTimes(imp.name == "", NameRequired, problem);
    WhenTimes(imp.configMapRef.Some?, ConfigMapForbidden, problem);
    WhenTimes(imp.secretRef.Some?, SecretForbidden, problem);
    TimesOfFive(name, source, configMap, secret, inside, problem);
  }

  lemma TemplateDescriptorSourceTimes(imp: DescriptorImport, problem: Problem)
    ensures Times(OneSourceProblems(DescriptorFields(imp), TEMPLATE_DESCRIPTOR_SOURCES), problem) ==
      Once(problem.NotExactlyOneSource?
           && SourceFault([imp.list.Some?, imp.dataRef != ""], problem.verdict))
  {
    TemplateDescriptorGiven(imp);
    SourceTimes(DescriptorFields(imp), TEMPLATE_DESCRIPTOR_SOURCES, [imp.list.Some?, imp.dataRef != ""], problem);
  }

  lemma TemplateDescriptorCases(imp: DescriptorImport, problem: Problem)
    ensures Once(TemplateDescriptorFault(imp, problem)) ==
      Once(imp.name == "" && problem == NameRequired)
      + Once(problem.NotExactlyOneSource?
           && SourceFault([imp.list.Some?, imp.dataRef != ""], problem.verdict))
      + Once(imp.configMapRef.Some? && problem == ConfigMapForbidden)
      + Once(imp.secretRef.Some? && problem == SecretForbidden)
      + Once(problem.InList? && imp.list.Some? && problem.element < |imp.list.value|
             && TemplateElementFault(imp.list.value[problem.element], problem.problem))
  {
  }

  lemma TemplateDescriptorTimes(imp: DescriptorImport, problem: Problem)
    ensures Times(TemplateDescriptorProblems(imp), problem) == Once(TemplateDescriptorFault(imp, problem))
  {
    TemplateDescriptorSum(imp, problem);
    TemplateDescriptorSourceTimes(imp, problem);
    TemplateInListTimes(imp, problem);
    TemplateDescriptorCases(imp, problem);
  }

  // ---------- How often an issue of a list is reported ----------

  lemma IssuesTimes(section: Section, index: nat, problems: seq<Problem>, issue: Issue)
    ensures Times(Issues(section, index, problems), issue) ==
      if issue.section == section && issue.index == index then Times(problems, issue.problem) else 0
  {
    if issue.section == section && issue.index == index {
      TimesMapped(problems, Issues(section, index, problems), p => Issue(section, index, p), issue.problem);
    } else {
      TimesOfAbsent(Issues(section, index, problems), issue);
    }
  }

  lemma {:induction false} EntriesTimes(section: Section, entries: seq<Entry>, seen: set<string>, n: nat, issue: Issue)
    requires n <= |entries|
    ensures Times(ConcatAll(ListIssues(section, entries, seen)[..n]), issue) ==
      if issue.section == section && issue.index < n
      then Times(EntryProblems(entries[issue.index], SeenBefore(entries, issue.index, seen)), issue.problem) else 0
  {
    if n > 0 {
      var i: nat := n - 1;
      var parts := ListIssues(section, entries, seen);
      EntriesTimes(section, entries, seen, i, issue);
      ConcatAllStep(parts, i);
      TimesConcat(ConcatAll(parts[..i]), parts[i], issue);
      IssuesTimes(section, i, EntryProblems(entries[i], SeenBefore(entries, i, seen)), issue);
    }
  }

  lemma EntryTimes(entry: Entry, seen: set<string>, problem: Problem)
    ensures Times(EntryProblems(entry, seen), problem) ==
      Times(entry.problems, problem) + Once(problem == DuplicateName && entry.counted && entry.name in seen)
  {
    TimesConcat(entry.problems, if entry.counted && entry.name in seen then [DuplicateName] else [], problem);
  }

  lemma ListCheckTimes(section: Section, entries: seq<Entry>, seen: set<string>, issue: Issue)
    ensures Times(ListCheck(section, entries, seen), issue) ==
      if issue.section == section && issue.index < |entries|
      then Times(entries[issue.index].problems, issue.problem)
           + Once(issue.problem == DuplicateName && entries[issue.index].counted
                  && entries[issue.index].name in SeenBefore(entries, issue.index, seen))
      else 0
  {
    var parts := ListIssues(section, entries, seen);
    EntriesTimes(section, entries, seen, |entries|, issue);
    assert parts[..|entries|] == parts;
    if issue.section == section && issue.index < |entries| {
      EntryTimes(entries[issue.index], SeenBefore(entries, issue.index, seen), issue.problem);
    }
  }

  // ---------- Imports ----------

  /** The names of the first `n` data imports that have one. */
  function DataNames(imports: seq<DataImport>, n: nat): set<string>
    requires n <= |imports|
  {
    set k | 0 <= k < n && imports[k].name != "" :: imports[k].name
  }

  function TargetNames(imports: seq<TargetImport>, n: nat): set<string>
    requires n <= |imports|
  {
    set k | 0 <= k < n :: imports[k].name
  }

  function DescriptorNames(imports: seq<DescriptorImport>, n: nat): set<string>
    requires n <= |imports|
  {
    set k | 0 <= k < n :: imports[k].name
  }

  /** The import that an issue is about exists. */
  predicate Exists(imports: Imports, issue: Issue) {
    match issue.section
    case DataImports => issue.index < |imports.data|
    case TargetImports => issue.index < |imports.targets|
    case DescriptorImports => issue.index < |imports.componentDescriptors|
    case _ => false
  }

  /** The import that an issue is about repeats a name; only a nameless data import cannot. */
  predicate NameRepeated(imports: Imports, issue: Issue)
    requires Exists(imports, issue)
  {
    var i := issue.index;
    var data, targets := DataNames(imports.data, |imports.data|), TargetNames(imports.targets, |imports.targets|);
    match issue.section
    case DataImports => imports.data[i].name != "" && imports.data[i].name in DataNames(imports.data, i)
    case TargetImports => imports.targets[i].name in data + TargetNames(imports.targets, i)
    case DescriptorImports =>
      imports.componentDescriptors[i].name in data + targets + DescriptorNames(imports.componentDescriptors, i)
  }

  /** The import that an issue is about has this fault by itself. */
  ghost predicate OwnFault(imports: Imports, issue: Issue)
    requires Exists(imports, issue)
  {
    match issue.section
    case DataImports => DataFault(imports.data[issue.index], issue.problem)
    case TargetImports => TargetFault(imports.targets[issue.index], issue.problem)
    case DescriptorImports => DescriptorFault(imports.componentDescriptors[issue.index], issue.problem)
  }

  ghost predicate ImportFault(imports: Imports, issue: Issue) {
    Exists(imports, issue) &&
    if issue.problem == DuplicateName then NameRepeated(imports, issue) else OwnFault(imports, issue)
  }

  /** The import that an issue is about has this fault by itself. */
  ghost predicate TemplateOwnFault(imports: Imports, issue: Issue)
    requires Exists(imports, issue)
  {
    match issue.section
    case DataImports => TemplateDataFault(imports.data[issue.index], issue.problem)
    case TargetImports => TargetFault(imports.targets[issue.index], issue.problem)
    case DescriptorImports => TemplateDescriptorFault(imports.componentDescriptors[issue.index], issue.problem)
  }

  ghost predicate TemplateImportFault(imports: Imports, issue: Issue) {
    Exists(imports, issue) &&
    if issue.problem == DuplicateName then NameRepeated(imports, issue) else TemplateOwnFault(imports, issue)
  }

  lemma ThreeListsTimes(data: seq<Entry>, targets: seq<Entry>, descriptors: seq<Entry>, issue: Issue)
    ensures var afterData := SeenAfter(data, {});
      Times(ThreeLists(data, targets, descriptors), issue) ==
        match issue.section
        case DataImports => Times(ListCheck(DataImports, data, {}), issue)
        case TargetImports => Times(ListCheck(TargetImports, targets, afterData), issue)
        case DescriptorImports => Times(ListCheck(DescriptorImports, descriptors, SeenAfter(targets, afterData)), issue)
        case _ => 0
  {
    var afterData := SeenAfter(data, {});
    var afterTargets := SeenAfter(targets, afterData);
    var d, t, c := ListCheck(DataImports, data, {}), ListCheck(TargetImports, targets, afterData),
                   ListCheck(DescriptorImports, descriptors, afterTargets);
    TimesConcat(d, t, issue);
    TimesConcat(d + t, c, issue);
    ListCheckTimes(DataImports, data, {}, issue);
    ListCheckTimes(TargetImports, targets, afterData, issue);
    ListCheckTimes(DescriptorImports, descriptors, afterTargets, issue);
  }

  /** What the entries say about names, whatever their problems are. */
  ghost predicate NamedLike(imports: Imports, data: seq<Entry>, targets: seq<Entry>, descriptors: seq<Entry>) {
    && |data| == |imports.data| && |targets| == |imports.targets| && |descriptors| == |imports.componentDescriptors|
    && (forall k :: 0 <= k < |data| ==> data[k].name == imports.data[k].name && data[k].counted == (data[k].name != ""))
    && (forall k :: 0 <= k < |targets| ==> targets[k].name == imports.targets[k].name && targets[k].counted)
    && (forall k :: 0 <= k < |descriptors| ==>
          descriptors[k].name == imports.componentDescriptors[k].name && descriptors[k].counted)
  }

  lemma SeenNames(imports: Imports, data: seq<Entry>, targets: seq<Entry>, descriptors: seq<Entry>)
    requires NamedLike(imports, data, targets, descriptors)
    ensures forall i :: 0 <= i <= |data| ==> SeenBefore(data, i, {}) == DataNames(imports.data, i)
    ensures forall i, seen :: 0 <= i <= |targets| ==>
      SeenBefore(targets, i, seen) == seen + TargetNames(imports.targets, i)
    ensures forall i, seen :: 0 <= i <= |descriptors| ==>
      SeenBefore(descriptors, i, seen) == seen + DescriptorNames(imports.componentDescriptors, i)
  {
  }

  /** The problems an entry has by itself, for the entry that an issue is about. */
  function OwnProblems(data: seq<Entry>, targets: seq<Entry>, descriptors: seq<Entry>, issue: Issue): seq<Problem> {
    match issue.section
    case DataImports => if issue.index < |data| then data[issue.index].problems else []
    case TargetImports => if issue.index < |targets| then targets[issue.index].problems else []
    case DescriptorImports => if issue.index < |descriptors| then descriptors[issue.index].problems else []
    case _ => []
  }

  lemma NamedTimes(imports: Imports, data: seq<Entry>, targets: seq<Entry>, descriptors: seq<Entry>, issue: Issue)
    requires NamedLike(imports, data, targets, descriptors)
    ensures Times(ThreeLists(data, targets, descriptors), issue) ==
      Times(OwnProblems(data, targets, descriptors, issue), issue.problem)
      + Once(issue.problem == DuplicateName && Exists(imports, issue) && NameRepeated(imports, issue))
  {
    var afterData := SeenAfter(data, {});
    SeenNames(imports, data, targets, descriptors);
    ThreeListsTimes(data, targets, descriptors, issue);
    match issue.section {
      case DataImports => ListCheckTimes(DataImports, data, {}, issue);
      case TargetImports => ListCheckTimes(TargetImports, targets, afterData, issue);
      case DescriptorImports => ListCheckTimes(DescriptorImports, descriptors, SeenAfter(targets, afterData), issue);
      case _ =>
    }
  }

  function ProblemsOf(imports: Imports, issue: Issue): seq<Problem>
    requires Exists(imports, issue)
  {
    match issue.section
    case DataImports => DataProblems(imports.data[issue.index])
    case TargetImports => TargetProblems(imports.targets[issue.index])
    case DescriptorImports => DescriptorProblems(imports.componentDescriptors[issue.index])
  }

  lemma ProblemsOfEntries(imports: Imports, issue: Issue)
    requires Exists(imports, issue)
    ensures OwnProblems(DataEntries(imports.data), TargetEntries(imports.targets),
                        DescriptorEntries(imports.componentDescriptors), issue) == ProblemsOf(imports, issue)
  {
  }

  lemma ProblemsOfTimes(imports: Imports, issue: Issue)
    requires Exists(imports, issue)
    ensures Times(ProblemsOf(imports, issue), issue.problem) == Once(OwnFault(imports, issue))
  {
    match issue.section {
      case DataImports => DataTimes(imports.data[issue.index], issue.problem);
      case TargetImports => TargetTimes(imports.targets[issue.index], issue.problem);
      case DescriptorImports => DescriptorTimes(imports.componentDescriptors[issue.index], issue.problem);
    }
  }

  lemma OwnTimes(imports: Imports, issue: Issue)
    requires Exists(imports, issue)
    ensures Times(OwnProblems(DataEntries(imports.data), TargetEntries(imports.targets),
                              DescriptorEntries(imports.componentDescriptors), issue), issue.problem) ==
      Once(OwnFault(imports, issue))
    ensures issue.problem == DuplicateName ==> !OwnFault(imports, issue)
  {
    ProblemsOfEntries(imports, issue);
    ProblemsOfTimes(imports, issue);
  }

  /** Of the imports of an installation, every fault is reported once, at its place, and nothing else is. */
  lemma ImportIssuesExact(imports: Imports, issue: Issue)
    ensures Times(ImportIssues(imports), issue) == Once(ImportFault(imports, issue))
  {
    NamedTimes(imports, DataEntries(imports.data), TargetEntries(imports.targets),
               DescriptorEntries(imports.componentDescriptors), issue);
    if Exists(imports, issue) {
      OwnTimes(imports, issue);
    }
  }

  function TemplateProblemsOf(imports: Imports, issue: Issue): seq<Problem>
    requires Exists(imports, issue)
  {
    match issue.section
    case DataImports => TemplateDataProblems(imports.data[issue.index])
    case TargetImports => TargetProblems(imports.targets[issue.index])
    case DescriptorImports => TemplateDescriptorProblems(imports.componentDescriptors[issue.index])
  }

  lemma TemplateProblemsOfEntries(imports: Imports, issue: Issue)
    requires Exists(imports, issue)
    ensures OwnProblems(TemplateDataEntries(imports.data), TargetEntries(imports.targets),
                        TemplateDescriptorEntries(imports.componentDescriptors), issue) ==
      TemplateProblemsOf(imports, issue)
  {
  }

  lemma TemplateProblemsOfTimes(imports: Imports, issue: Issue)
    requires Exists(imports, issue)
    ensures Times(TemplateProblemsOf(imports, issue), issue.problem) == Once(TemplateOwnFault(imports, issue))
  {
    match issue.section {
      case DataImports => TemplateDataTimes(imports.data[issue.index], issue.problem);
      case TargetImports => TargetTimes(imports.targets[issue.index], issue.problem);
      case DescriptorImports => TemplateDescriptorTimes(imports.componentDescriptors[issue.index], issue.problem);
    }
  }

  lemma TemplateOwnTimes(imports: Imports, issue: Issue)
    requires Exists(imports, issue)
    ensures Times(OwnProblems(TemplateDataEntries(imports.data), TargetEntries(imports.targets),
                              TemplateDescriptorEntries(imports.componentDescriptors), issue), issue.problem) ==
      Once(TemplateOwnFault(imports, issue))
    ensures issue.problem == DuplicateName ==> !TemplateOwnFault(imports, issue)
  {
    TemplateProblemsOfEntries(imports, issue);
    TemplateProblemsOfTimes(imports, issue);
  }

  /** The same for the imports of a template. */
  lemma TemplateImportIssuesExact(imports: Imports, issue: Issue)
    ensures Times(TemplateImportIssues(imports), issue) == Once(TemplateImportFault(imports, issue))
  {
    NamedTimes(imports, TemplateDataEntries(imports.data), TargetEntries(imports.targets),
               TemplateDescriptorEntries(imports.componentDescriptors), issue);
    if Exists(imports, issue) {
      TemplateOwnTimes(imports, issue);
    }
  }

  // ---------- Exports ----------

  predicate DataExportFault(exports: seq<DataExport>, i: nat, problem: Problem)
    requires i < |exports|
  {
    match problem
    case NameRequired => exports[i].name == ""
    case DataRefRequired => exports[i].dataRef == ""
    case DuplicateName => exports[i].name != "" && exists k :: 0 <= k < i && exports[k].name == exports[i].name
    case _ => false
  }

  predicate TargetExportFault(exports: seq<TargetExport>, i: nat, problem: Problem)
    requires i < |exports|
  {
    match problem
    case NameRequired => exports[i].name == ""
    case TargetRequired => exports[i].target == ""
    case DuplicateName => exports[i].name != "" && exists k :: 0 <= k < i && exports[k].name == exports[i].name
    case _ => false
  }

  predicate ExportFault(exports: Exports, issue: Issue) {
    match issue.section
    case DataExports => issue.index < |exports.data| && DataExportFault(exports.data, issue.index, issue.problem)
    case TargetExports =>
      issue.index < |exports.targets| && TargetExportFault(exports.targets, issue.index, issue.problem)
    case _ => false
  }

  lemma DataExportProblemTimes(exp: DataExport, problem: Problem)
    ensures Times(DataExportProblems(exp), problem) ==
      Once(exp.dataRef == "" && problem == DataRefRequired) + Once(exp.name == "" && problem == NameRequired)
  {
    WhenTimes(exp.dataRef == "", DataRefRequired, problem);
    WhenTimes(exp.name == "", NameRequired, problem);
    TimesConcat(When(exp.dataRef == "", DataRefRequired), When(exp.name == "", NameRequired), problem);
  }

  lemma DataExportSeen(exports: seq<DataExport>, i: nat)
    requires i < |exports| && exports[i].name != ""
    ensures exports[i].name in SeenBefore(DataExportEntries(exports), i, {}) <==>
      exists k :: 0 <= k < i && exports[k].name == exports[i].name
  {
    var entries := DataExportEntries(exports);
    if exports[i].name in SeenBefore(entries, i, {}) {
      var k :| 0 <= k < i && entries[k].counted && entries[k].name == exports[i].name;
      assert exports[k].name == exports[i].name;
    }
    if k :| 0 <= k < i && exports[k].name == exports[i].name {
      assert entries[k].counted && entries[k].name == exports[i].name;
    }
  }

  lemma DataExportTimes(exports: seq<DataExport>, issue: Issue)
    requires issue.section == DataExports && issue.index < |exports|
    ensures Times(ListCheck(DataExports, DataExportEntries(exports), {}), issue) ==
      Once(DataExportFault(exports, issue.index, issue.problem))
  {
    ListCheckTimes(DataExports, DataExportEntries(exports), {}, issue);
    DataExportProblemTimes(exports[issue.index], issue.problem);
    if exports[issue.index].name != "" {
      DataExportSeen(exports, issue.index);
    }
  }

  lemma TargetExportProblemTimes(exp: TargetExport, problem: Problem)
    ensures Times(TargetExportProblems(exp), problem) ==
      Once(exp.target == "" && problem == TargetRequired) + Once(exp.name == "" && problem == NameRequired)
  {
    WhenTimes(exp.target == "", TargetRequired, problem);
    WhenTimes(exp.name == "", NameRequired, problem);
    TimesConcat(When(exp.target == "", TargetRequired), When(exp.name == "", NameRequired), problem);
  }

  lemma TargetExportSeen(exports: seq<TargetExport>, i: nat)
    requires i < |exports| && exports[i].name != ""
    ensures exports[i].name in SeenBefore(TargetExportEntries(exports), i, {}) <==>
      exists k :: 0 <= k < i && exports[k].name == exports[i].name
  {
    var entries := TargetExportEntries(exports);
    if exports[i].name in SeenBefore(entries, i, {}) {
      var k :| 0 <= k < i && entries[k].counted && entries[k].name == exports[i].name;
      assert exports[k].name == exports[i].name;
    }
    if k :| 0 <= k < i && exports[k].name == exports[i].name {
      assert entries[k].counted && entries[k].name == exports[i].name;
    }
  }

  lemma TargetExportTimes(exports: seq<TargetExport>, issue: Issue)
    requires issue.section == TargetExports && issue.index < |exports|
    ensures Times(ListCheck(TargetExports, TargetExportEntries(exports), {}), issue) ==
      Once(TargetExportFault(exports, issue.index, issue.problem))
  {
    ListCheckTimes(TargetExports, TargetExportEntries(exports), {}, issue);
    TargetExportProblemTimes(exports[issue.index], issue.problem);
    if exports[issue.index].name != "" {
      TargetExportSeen(exports, issue.index);
    }
  }

  /** The same for exports. */
  lemma ExportIssuesExact(exports: Exports, issue: Issue)
    ensures Times(ExportIssues(exports), issue) == Once(ExportFault(exports, issue))
  {
    var data, targets := DataExportEntries(exports.data), TargetExportEntries(exports.targets);
    TimesConcat(ListCheck(DataExports, data, {}), ListCheck(TargetExports, targets, {}), issue);
    ListCheckTimes(DataExports, data, {}, issue);
    ListCheckTimes(TargetExports, targets, {}, issue);
    if issue.section == DataExports && issue.index < |exports.data| {
      DataExportTimes(exports.data, issue);
    }
    if issue.section == TargetExports && issue.index < |exports.targets| {
      TargetExportTimes(exports.targets, issue);
    }
  }
}
