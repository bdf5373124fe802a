/** What an accepted list of installation imports, template imports or exports looks like as a whole. */
module InstallationImportLaws {
  import opened Basics
  import opened ConfigChecks
  import opened NamedLists
  import opened InstallationImports

  /** Exactly one of some choices. */
  predicate JustOne(choices: seq<bool>) {
    exists i :: 0 <= i < |choices| && choices[i] && forall j :: 0 <= j < |choices| && choices[j] ==> j == i
  }

  predicate ReferenceOk(or: Option<ObjectReference>) {
    or.Some? ==> or.value.name != "" && or.value.namespace != ""
  }

  predicate DataOk(imp: DataImport) {
    && JustOne([imp.dataRef != "", imp.secretRef.Some?, imp.configMapRef.Some?])
    && ReferenceOk(imp.secretRef) && ReferenceOk(imp.configMapRef) && imp.name != ""
  }

  predicate TargetOk(imp: TargetImport) {
    && imp.name != ""
    && JustOne([imp.target != "", imp.targets.Some?, imp.targetListReference != ""])
    && (imp.targets.Some? ==> "" !in imp.targets.value)
  }

  predicate ElementOk(cd: DescriptorData) {
    && JustOne([cd.ref.Some?, cd.secretRef.Some?, cd.configMapRef.Some?])
    && ReferenceOk(cd.configMapRef) && ReferenceOk(cd.secretRef) && cd.dataRef == ""
  }

  predicate DescriptorOk(imp: DescriptorImport) {
    && imp.name != ""
    && JustOne([imp.ref.Some?, imp.secretRef.Some?, imp.configMapRef.Some?, imp.list.Some?])
    && ReferenceOk(imp.configMapRef) && ReferenceOk(imp.secretRef) && imp.dataRef == ""
    && (imp.list.Some? ==> forall k :: 0 <= k < |imp.list.value| ==> ElementOk(imp.list.value[k]))
  }

  predicate TemplateDataOk(imp: DataImport) {
    imp.dataRef != "" && imp.secretRef.None? && imp.configMapRef.None? && imp.name != ""
  }

  predicate TemplateElementOk(cd: DescriptorData) {
    cd.configMapRef.None? && cd.secretRef.None? && cd.dataRef != ""
  }

  predicate TemplateDescriptorOk(imp: DescriptorImport) {
    && imp.name != ""
    && JustOne([imp.list.Some?, imp.dataRef != ""])
    && imp.configMapRef.None? && imp.secretRef.None?
    && (imp.list.Some? ==> forall k :: 0 <= k < |imp.list.value| ==> TemplateElementOk(imp.list.value[k]))
  }

  // ---------- The exactly-one checks, field by field ----------

  lemma FieldNamesDiffer()
    ensures Distinct([NAME, REF, LIST, TARGET_FIELD, TARGETS_FIELD, DATA_REF, SECRET_REF, CONFIG_MAP_REF,
                      TARGET_LIST_REFERENCE])
  {
    assert |NAME| == 4 && |REF| == 3 && |TARGET_FIELD| == 6 && |SECRET_REF| == 9 && |CONFIG_MAP_REF| == 12
      && |TARGET_LIST_REFERENCE| == 19;
    assert |LIST| == 4 && LIST[0] == 'L' && NAME[0] == 'N';
    assert |TARGETS_FIELD| == 7 && |DATA_REF| == 7 && TARGETS_FIELD[0] == 'T' && DATA_REF[0] == 'D';
  }

  /** The choices of the relevant fields, in the order of the fields. */
  function Choices(fields: seq<Field>, configs: seq<string>): seq<bool> {
    seq(|fields|, i requires 0 <= i < |fields| => fields[i].name in configs && fields[i].isSet)
  }

  lemma OneSourceIff(fields: seq<Field>, configs: seq<string>)
    ensures OneSourceProblems(fields, configs) == [] <==> JustOne(Choices(fields, configs))
  {
    ExactlyOneIff(fields, configs);
    var choices := Choices(fields, configs);
    forall i ensures Counts(fields, configs, i) <==> 0 <= i < |choices| && choices[i] {
    }
    if i :| OnlyOne(fields, configs, i) {
      assert choices[i] && forall j :: 0 <= j < |choices| && choices[j] ==> Counts(fields, configs, j);
    }
    if JustOne(choices) {
      var i :| 0 <= i < |choices| && choices[i] && forall j :: 0 <= j < |choices| && choices[j] ==> j == i;
      assert OnlyOne(fields, configs, i);
    }
  }

  lemma DropFirst(choices: seq<bool>)
    ensures JustOne([false] + choices) <==> JustOne(choices)
  {
    var s := [false] + choices;
    assert forall i :: 0 <= i < |choices| ==> s[i + 1] == choices[i];
    if JustOne(choices) {
      var i :| 0 <= i < |choices| && choices[i] && forall j :: 0 <= j < |choices| && choices[j] ==> j == i;
      forall j | 0 <= j < |s| && s[j] ensures j == i + 1 {
        assert choices[j - 1];
      }
    }
    if JustOne(s) {
      var i :| 0 <= i < |s| && s[i] && forall j :: 0 <= j < |s| && s[j] ==> j == i;
      assert choices[i - 1];
      forall j | 0 <= j < |choices| && choices[j] ensures j == i - 1 {
        assert s[j + 1];
      }
    }
  }

  lemma DropLast(choices: seq<bool>)
    ensures JustOne(choices + [false]) <==> JustOne(choices)
  {
    var s := choices + [false];
    assert forall i :: 0 <= i < |choices| ==> s[i] == choices[i];
    if JustOne(choices) {
      var i :| 0 <= i < |choices| && choices[i] && forall j :: 0 <= j < |choices| && choices[j] ==> j == i;
      assert s[i] && forall j :: 0 <= j < |s| && s[j] ==> j == i;
    }
    if JustOne(s) {
      var i :| 0 <= i < |s| && s[i] && forall j :: 0 <= j < |s| && s[j] ==> j == i;
      assert choices[i] && forall j :: 0 <= j < |choices| && choices[j] ==> j == i;
    }
  }

  lemma DataSourceFields()
    ensures DATA_REF in DATA_SOURCES && SECRET_REF in DATA_SOURCES && CONFIG_MAP_REF in DATA_SOURCES
      && NAME !in DATA_SOURCES
  {
    FieldNamesDiffer();
  }

  lemma DataChoices(imp: DataImport)
    ensures Choices(DataFields(imp), DATA_SOURCES) ==
      [false] + [imp.dataRef != "", imp.secretRef.Some?, imp.configMapRef.Some?]
  {
    DataSourceFields();
  }

  lemma DataSource(imp: DataImport)
    ensures OneSourceProblems(DataFields(imp), DATA_SOURCES) == [] <==>
      JustOne([imp.dataRef != "", imp.secretRef.Some?, imp.configMapRef.Some?])
  {
    var choices := [imp.dataRef != "", imp.secretRef.Some?, imp.configMapRef.Some?];
    OneSourceIff(DataFields(imp), DATA_SOURCES);
    DataChoices(imp);
    DropFirst(choices);
  }

  lemma TargetSourceFields()
    ensures TARGET_FIELD in TARGET_SOURCES && TARGETS_FIELD in TARGET_SOURCES && TARGET_LIST_REFERENCE in TARGET_SOURCES
    ensures NAME !in TARGET_SOURCES
  {
    FieldNamesDiffer();
  }

  lemma TargetChoices(imp: TargetImport)
    ensures Choices(TargetFields(imp), TARGET_SOURCES) ==
      [false] + [imp.target != "", imp.targets.Some?, imp.targetListReference != ""]
  {
    TargetSourceFields();
  }

  lemma TargetSource(imp: TargetImport)
    ensures OneSourceProblems(TargetFields(imp), TARGET_SOURCES) == [] <==>
      JustOne([imp.target != "", imp.targets.Some?, imp.targetListReference != ""])
  {
    var choices := [imp.target != "", imp.targets.Some?, imp.targetListReference != ""];
    OneSourceIff(TargetFields(imp), TARGET_SOURCES);
    TargetChoices(imp);
    DropFirst(choices);
  }

  lemma ElementSourceFields()
    ensures REF in ELEMENT_SOURCES && SECRET_REF in ELEMENT_SOURCES && CONFIG_MAP_REF in ELEMENT_SOURCES
      && DATA_REF !in ELEMENT_SOURCES
  {
    FieldNamesDiffer();
  }

  lemma ElementChoices(cd: DescriptorData)
    ensures Choices(DescriptorDataFields(cd), ELEMENT_SOURCES) ==
      [cd.ref.Some?, cd.secretRef.Some?, cd.configMapRef.Some?] + [false]
  {
    ElementSourceFields();
  }

  lemma ElementSource(cd: DescriptorData)
    ensures OneSourceProblems(DescriptorDataFields(cd), ELEMENT_SOURCES) == [] <==>
      JustOne([cd.ref.Some?, cd.secretRef.Some?, cd.configMapRef.Some?])
  {
    var choices := [cd.ref.Some?, cd.secretRef.Some?, cd.configMapRef.Some?];
    OneSourceIff(DescriptorDataFields(cd), ELEMENT_SOURCES);
    ElementChoices(cd);
    DropLast(choices);
  }

  lemma DescriptorSourceFields()
    ensures REF in DESCRIPTOR_SOURCES && SECRET_REF in DESCRIPTOR_SOURCES && CONFIG_MAP_REF in DESCRIPTOR_SOURCES
      && LIST in DESCRIPTOR_SOURCES
    ensures NAME !in DESCRIPTOR_SOURCES && DATA_REF !in DESCRIPTOR_SOURCES
  {
    FieldNamesDiffer();
  }

  lemma DescriptorChoices(imp: DescriptorImport)
    ensures Choices(DescriptorFields(imp), DESCRIPTOR_SOURCES) ==
      [false] + ([imp.ref.Some?, imp.secretRef.Some?, imp.configMapRef.Some?, imp.list.Some?] + [false])
  {
    DescriptorSourceFields();
  }

  lemma DescriptorSource(imp: DescriptorImport)
    ensures OneSourceProblems(DescriptorFields(imp), DESCRIPTOR_SOURCES) == [] <==>
      JustOne([imp.ref.Some?, imp.secretRef.Some?, imp.configMapRef.Some?, imp.list.Some?])
  {
    var choices := [imp.ref.Some?, imp.secretRef.Some?, imp.configMapRef.Some?, imp.list.Some?];
    OneSourceIff(DescriptorFields(imp), DESCRIPTOR_SOURCES);
    DescriptorChoices(imp);
    DropFirst(choices + [false]);
    DropLast(choices);
  }

  lemma TemplateSourceFields()
    ensures LIST in TEMPLATE_DESCRIPTOR_SOURCES && DATA_REF in TEMPLATE_DESCRIPTOR_SOURCES
    ensures NAME !in TEMPLATE_DESCRIPTOR_SOURCES && REF !in TEMPLATE_DESCRIPTOR_SOURCES
    ensures SECRET_REF !in TEMPLATE_DESCRIPTOR_SOURCES && CONFIG_MAP_REF !in TEMPLATE_DESCRIPTOR_SOURCES
  {
    FieldNamesDiffer();
  }

  lemma TemplateChoices(imp: DescriptorImport)
    ensures Choices(DescriptorFields(imp), TEMPLATE_DESCRIPTOR_SOURCES) ==
      [false] + ([false] + ([false] + ([false] + [imp.list.Some?, imp.dataRef != ""])))
  {
    TemplateSourceFields();
  }

  lemma TemplateDescriptorSource(imp: DescriptorImport)
    ensures OneSourceProblems(DescriptorFields(imp), TEMPLATE_DESCRIPTOR_SOURCES) == [] <==>
      JustOne([imp.list.Some?, imp.dataRef != ""])
  {
    var choices := [imp.list.Some?, imp.dataRef != ""];
    OneSourceIff(DescriptorFields(imp), TEMPLATE_DESCRIPTOR_SOURCES);
    TemplateChoices(imp);
    DropFirst([false] + ([false] + ([false] + choices)));
    DropFirst([false] + ([false] + choices));
    DropFirst([false] + choices);
    DropFirst(choices);
  }

  // ---------- One entry ----------

  lemma DataOkIff(imp: DataImport)
    ensures DataProblems(imp) == [] <==> DataOk(imp)
  {
    DataSource(imp);
  }

  lemma {:induction false} EmptyTargetsNone(targets: seq<string>, n: nat)
    requires n <= |targets|
    ensures EmptyTargets(targets, n) == [] <==> forall k :: 0 <= k < n ==> targets[k] != ""
  {
    if n > 0 {
      EmptyTargetsNone(targets, n - 1);
    }
  }

  lemma TargetOkIff(imp: TargetImport)
    ensures TargetProblems(imp) == [] <==> TargetOk(imp)
  {
    TargetSource(imp);
    if imp.targets.Some? {
      EmptyTargetsNone(imp.targets.value, |imp.targets.value|);
    }
  }

  lemma ElementOkIff(cd: DescriptorData)
    ensures ElementProblems(cd) == [] <==> ElementOk(cd)
  {
    ElementSource(cd);
  }

  lemma {:induction false} NestedNone(problems: seq<seq<Problem>>, n: nat)
    requires n <= |problems|
    ensures Nested(problems, n) == [] <==> forall k :: 0 <= k < n ==> problems[k] == []
  {
    if n > 0 {
      NestedNone(problems, n - 1);
      assert |Inside(n - 1, problems[n - 1])| == |problems[n - 1]|;
    }
  }

  lemma DescriptorOkIff(imp: DescriptorImport)
    ensures DescriptorProblems(imp) == [] <==> DescriptorOk(imp)
  {
    DescriptorSource(imp);
    if imp.list.Some? {
      var list := imp.list.value;
      NestedNone(EachElement(list), |list|);
      forall k | 0 <= k < |list| ensures EachElement(list)[k] == [] <==> ElementOk(list[k]) {
        ElementOkIff(list[k]);
      }
    }
  }

  lemma TemplateDescriptorOkIff(imp: DescriptorImport)
    ensures TemplateDescriptorProblems(imp) == [] <==> TemplateDescriptorOk(imp)
  {
    TemplateDescriptorSource(imp);
    if imp.list.Some? {
      var list := imp.list.value;
      NestedNone(EachTemplateElement(list), |list|);
      assert forall k :: 0 <= k < |list| ==> (EachTemplateElement(list)[k] == [] <==> TemplateElementOk(list[k]));
    }
  }

  // ---------- The lists together ----------

  lemma SeenIsNames(entries: seq<Entry>, seen: set<string>)
    requires WellFormed(entries) && AllOk(entries)
    ensures SeenAfter(entries, seen) == seen + Elements(NamesOf(entries))
  {
    assert forall i :: 0 <= i < |entries| ==> entries[i].counted && entries[i].name == NamesOf(entries)[i];
    forall n | n in Elements(NamesOf(entries)) ensures n in SeenAfter(entries, seen) {
      var i :| 0 <= i < |entries| && NamesOf(entries)[i] == n;
      assert entries[i].name == n;
    }
  }

  lemma ThreeListsIff(data: seq<Entry>, targets: seq<Entry>, descriptors: seq<Entry>)
    requires WellFormed(data) && WellFormed(targets) && WellFormed(descriptors)
    ensures ThreeLists(data, targets, descriptors) == [] <==>
      && AllOk(data) && AllOk(targets) && AllOk(descriptors)
      && FreshNames(NamesOf(data) + NamesOf(targets) + NamesOf(descriptors), {})
  {
    var d, t, c := NamesOf(data), NamesOf(targets), NamesOf(descriptors);
    var afterData := SeenAfter(data, {});
    var afterTargets := SeenAfter(targets, afterData);
    NothingFoundIff(DataImports, data, {});
    NothingFoundIff(TargetImports, targets, afterData);
    NothingFoundIff(DescriptorImports, descriptors, afterTargets);
    FreshNamesConcat(d, t, {});
    FreshNamesConcat(d + t, c, {});
    if AllOk(data) {
      SeenIsNames(data, {});
      if AllOk(targets) {
        SeenIsNames(targets, afterData);
        ElementsConcat(d, t);
        assert {} + Elements(d + t) == afterTargets;
      }
    }
  }

  /** All names, list after list. */
  function AllNames(imports: Imports): seq<string> {
    NamesOf(DataEntries(imports.data)) + NamesOf(TargetEntries(imports.targets))
      + NamesOf(DescriptorEntries(imports.componentDescriptors))
  }

  lemma DataEntriesOk(imports: seq<DataImport>)
    ensures WellFormed(DataEntries(imports))
    ensures AllOk(DataEntries(imports)) <==> forall i :: 0 <= i < |imports| ==> DataOk(imports[i])
  {
    forall i | 0 <= i < |imports| ensures DataEntries(imports)[i].problems == [] <==> DataOk(imports[i]) {
      DataOkIff(imports[i]);
    }
  }

  lemma TargetEntriesOk(imports: seq<TargetImport>)
    ensures WellFormed(TargetEntries(imports))
    ensures AllOk(TargetEntries(imports)) <==> forall i :: 0 <= i < |imports| ==> TargetOk(imports[i])
  {
    forall i | 0 <= i < |imports| ensures TargetEntries(imports)[i].problems == [] <==> TargetOk(imports[i]) {
      TargetOkIff(imports[i]);
    }
  }

  lemma DescriptorEntriesOk(imports: seq<DescriptorImport>)
    ensures WellFormed(DescriptorEntries(imports))
    ensures AllOk(DescriptorEntries(imports)) <==> forall i :: 0 <= i < |imports| ==> DescriptorOk(imports[i])
  {
    forall i | 0 <= i < |imports| ensures DescriptorEntries(imports)[i].problems == [] <==> DescriptorOk(imports[i]) {
      DescriptorOkIff(imports[i]);
    }
  }

  lemma TemplateDataEntriesOk(imports: seq<DataImport>)
    ensures WellFormed(TemplateDataEntries(imports))
    ensures NamesOf(TemplateDataEntries(imports)) == NamesOf(DataEntries(imports))
    ensures AllOk(TemplateDataEntries(imports)) <==> forall i :: 0 <= i < |imports| ==> TemplateDataOk(imports[i])
  {
    forall i | 0 <= i < |imports|
      ensures TemplateDataEntries(imports)[i].problems == [] <==> TemplateDataOk(imports[i])
    {
    }
  }

  lemma TemplateDescriptorEntriesOk(imports: seq<DescriptorImport>)
    ensures WellFormed(TemplateDescriptorEntries(imports))
    ensures NamesOf(TemplateDescriptorEntries(imports)) == NamesOf(DescriptorEntries(imports))
    ensures AllOk(TemplateDescriptorEntries(imports)) <==>
      forall i :: 0 <= i < |imports| ==> TemplateDescriptorOk(imports[i])
  {
    forall i | 0 <= i < |imports|
      ensures TemplateDescriptorEntries(imports)[i].problems == [] <==> TemplateDescriptorOk(imports[i])
    {
      TemplateDescriptorOkIff(imports[i]);
    }
  }

  lemma FreshFromNothing(names: seq<string>)
    ensures FreshNames(names, {}) <==> Distinct(names) && "" !in names
  {
  }

  /**
   The imports of an installation are accepted exactly when every import is in order by itself, and all names
   across the three lists are not empty and differ.
   */
  lemma ImportsAcceptedIff(imports: Imports)
    ensures ImportIssues(imports) == [] <==>
      && (forall i :: 0 <= i < |imports.data| ==> DataOk(imports.data[i]))
      && (forall i :: 0 <= i < |imports.targets| ==> TargetOk(imports.targets[i]))
      && (forall i :: 0 <= i < |imports.componentDescriptors| ==> DescriptorOk(imports.componentDescriptors[i]))
      && Distinct(AllNames(imports)) && "" !in AllNames(imports)
  {
    DataEntriesOk(imports.data);
    TargetEntriesOk(imports.targets);
    DescriptorEntriesOk(imports.componentDescriptors);
    ThreeListsIff(DataEntries(imports.data), TargetEntries(imports.targets),
                  DescriptorEntries(imports.componentDescriptors));
    FreshFromNothing(AllNames(imports));
  }

  /** The same for the imports of a template, which may only refer to the parent and to siblings. */
  lemma TemplateImportsAcceptedIff(imports: Imports)
    ensures TemplateImportIssues(imports) == [] <==>
      && (forall i :: 0 <= i < |imports.data| ==> TemplateDataOk(imports.data[i]))
      && (forall i :: 0 <= i < |imports.targets| ==> TargetOk(imports.targets[i]))
      && (forall i :: 0 <= i < |imports.componentDescriptors| ==> TemplateDescriptorOk(imports.componentDescriptors[i]))
      && Distinct(AllNames(imports)) && "" !in AllNames(imports)
  {
    TemplateDataEntriesOk(imports.data);
    TargetEntriesOk(imports.targets);
    TemplateDescriptorEntriesOk(imports.componentDescriptors);
    ThreeListsIff(TemplateDataEntries(imports.data), TargetEntries(imports.targets),
                  TemplateDescriptorEntries(imports.componentDescriptors));
    FreshFromNothing(AllNames(imports));
  }

  lemma DataExportEntriesOk(exports: seq<DataExport>)
    ensures WellFormed(DataExportEntries(exports))
    ensures AllOk(DataExportEntries(exports)) <==>
      forall i :: 0 <= i < |exports| ==> exports[i].name != "" && exports[i].dataRef != ""
    ensures "" in NamesOf(DataExportEntries(exports)) ==> !AllOk(DataExportEntries(exports))
  {
    assert forall i :: 0 <= i < |exports| ==>
      (DataExportEntries(exports)[i].problems == [] <==> exports[i].name != "" && exports[i].dataRef != "");
  }

  lemma TargetExportEntriesOk(exports: seq<TargetExport>)
    ensures WellFormed(TargetExportEntries(exports))
    ensures AllOk(TargetExportEntries(exports)) <==>
      forall i :: 0 <= i < |exports| ==> exports[i].name != "" && exports[i].target != ""
    ensures "" in NamesOf(TargetExportEntries(exports)) ==> !AllOk(TargetExportEntries(exports))
  {
    assert forall i :: 0 <= i < |exports| ==>
      (TargetExportEntries(exports)[i].problems == [] <==> exports[i].name != "" && exports[i].target != "");
  }

  /** Exports are accepted exactly when names and references are given and the names within each list differ. */
  lemma ExportsAcceptedIff(exports: Exports)
    ensures ExportIssues(exports) == [] <==>
      && (forall i :: 0 <= i < |exports.data| ==> exports.data[i].name != "" && exports.data[i].dataRef != "")
      && (forall i :: 0 <= i < |exports.targets| ==> exports.targets[i].name != "" && exports.targets[i].target != "")
      && Distinct(NamesOf(DataExportEntries(exports.data))) && Distinct(NamesOf(TargetExportEntries(exports.targets)))
  {
    DataExportEntriesOk(exports.data);
    TargetExportEntriesOk(exports.targets);
    NothingFoundIff(DataExports, DataExportEntries(exports.data), {});
    NothingFoundIff(TargetExports, TargetExportEntries(exports.targets), {});
    FreshFromNothing(NamesOf(DataExportEntries(exports.data)));
    FreshFromNothing(NamesOf(TargetExportEntries(exports.targets)));
  }
}
