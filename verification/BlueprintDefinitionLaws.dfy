/** Name uniqueness over whole import trees, and how validation and defaulting agree. */
module BlueprintDefinitionLaws {
  import opened Basics
  import opened ConfigChecks
  import opened BlueprintDefinitions

  // ---------- The tree, flattened ----------

  /** All definitions of the tree, every one before its conditional imports. */
  function Flatten(imports: seq<ImportDef>): seq<ImportDef>
    decreases imports
  {
    if imports == [] then [] else [imports[0]] + Flatten(imports[0].conditional) + Flatten(imports[1..])
  }

  /** The non-empty names, in the order of the definitions. */
  function NamesOf(defs: seq<ImportDef>): seq<string> {
    if defs == [] then [] else (if defs[0].name == "" then [] else [defs[0].name]) + NamesOf(defs[1..])
  }

  /** How many names were seen before, when they are gone through one by one. */
  function Repeats(names: seq<string>, seen: set<string>): nat {
    if names == [] then 0
    else (if names[0] in seen then 1 else 0) + Repeats(names[1..], seen + {names[0]})
  }

  function Duplicates(errors: seq<DefError>): nat {
    if errors == [] then 0
    else (if errors[0].complaint == DuplicateName then 1 else 0) + Duplicates(errors[1..])
  }

  lemma {:induction false} NamesOfConcat(a: seq<ImportDef>, b: seq<ImportDef>)
    ensures NamesOf(a + b) == NamesOf(a) + NamesOf(b)
  {
    if a == [] {
      assert a + b == b;
    } else {
      NamesOfConcat(a[1..], b);
      assert (a + b)[0] == a[0] && (a + b)[1..] == a[1..] + b;
      var first := if a[0].name == "" then [] else [a[0].name];
      Associative(first, NamesOf(a[1..]), NamesOf(b));
    }
  }

  lemma {:induction false} RepeatsConcat(a: seq<string>, b: seq<string>, seen: set<string>)
    ensures Repeats(a + b, seen) == Repeats(a, seen) + Repeats(b, seen + Elements(a))
  {
    if a == [] {
      assert a + b == b && seen + Elements(a) == seen;
    } else {
      RepeatsConcat(a[1..], b, seen + {a[0]});
      assert (a + b)[0] == a[0] && (a + b)[1..] == a[1..] + b;
      assert a == [a[0]] + a[1..];
      assert seen + {a[0]} + Elements(a[1..]) == seen + Elements(a);
    }
  }

  lemma {:induction false} DuplicatesConcat(a: seq<DefError>, b: seq<DefError>)
    ensures Duplicates(a + b) == Duplicates(a) + Duplicates(b)
  {
    if a == [] {
      assert a + b == b;
    } else {
      DuplicatesConcat(a[1..], b);
      assert (a + b)[0] == a[0] && (a + b)[1..] == a[1..] + b;
    }
  }

  lemma {:induction false} NoDuplicatesAmong(path: seq<nat>, complaints: seq<Complaint>)
    requires DuplicateName !in complaints
    ensures Duplicates(At(path, complaints)) == 0
  {
    if complaints != [] {
      NoDuplicatesAmong(path, complaints[1..]);
    }
  }

  lemma {:induction false} ConfigIsNoDuplicate(errs: seq<ConfigError>)
    ensures DuplicateName !in AsComplaints(errs)
  {
    if errs != [] {
      ConfigIsNoDuplicate(errs[1..]);
    }
  }

  lemma OwnIsNoDuplicate(def: ImportDef)
    ensures DuplicateName !in OwnComplaints(def)
  {
    if def.importType in IMPORT_TYPES_WITH_EXPECTED_CONFIG {
      ConfigIsNoDuplicate(ConfigErrors(def.schema.Some?, def.targetType != "",
                          IMPORT_TYPES_WITH_EXPECTED_CONFIG[def.importType]));
    }
  }

  // ---------- Names across the tree ----------

  /** The flattened tree begins with a definition and what is below it. */
  lemma FlattenStep(imports: seq<ImportDef>, i: nat)
    requires i < |imports|
    ensures Flatten(imports[i..]) == [imports[i]] + Flatten(imports[i].conditional) + Flatten(imports[i + 1..])
  {
    assert imports[i..][0] == imports[i] && imports[i..][1..] == imports[i + 1..];
  }

  function OwnName(def: ImportDef): seq<string> {
    if def.name == "" then [] else [def.name]
  }

  lemma NamesStep(imports: seq<ImportDef>, i: nat)
    requires i < |imports|
    ensures var def := imports[i];
      NamesOf(Flatten(imports[i..])) == OwnName(def) + NamesOf(Flatten(def.conditional))
        + NamesOf(Flatten(imports[i + 1..]))
  {
    var def := imports[i];
    FlattenStep(imports, i);
    NamesOfConcat([def], Flatten(def.conditional));
    NamesOfConcat([def] + Flatten(def.conditional), Flatten(imports[i + 1..]));
    assert NamesOf([def]) == OwnName(def);
  }

  lemma RepeatsOfStep(imports: seq<ImportDef>, i: nat, seen: set<string>)
    requires i < |imports|
    ensures var def := imports[i];
      var own := WithName(seen, def.name);
      var below, rest := NamesOf(Flatten(def.conditional)), NamesOf(Flatten(imports[i + 1..]));
      && Repeats(NamesOf(Flatten(imports[i..])), seen) ==
           |DuplicateComplaints(def.name, seen)| + Repeats(below, own) + Repeats(rest, own + Elements(below))
      && seen + Elements(NamesOf(Flatten(imports[i..]))) == own + Elements(below) + Elements(rest)
  {
    var def := imports[i];
    var first, mid, last := OwnName(def), NamesOf(Flatten(def.conditional)), NamesOf(Flatten(imports[i + 1..]));
    NamesStep(imports, i);
    assert WithName(seen, def.name) == seen + Elements(first);
    RepeatsConcat(first, mid, seen);
    RepeatsConcat(first + mid, last, seen);
    ElementsConcat(first, mid);
    ElementsConcat(first + mid, last);
    assert seen + Elements(first + mid) == seen + Elements(first) + Elements(mid);
  }

  lemma DuplicatesOfStep(path: seq<nat>, def: ImportDef, seen: set<string>, below: seq<DefError>, rest: seq<DefError>)
    ensures Duplicates(At(path, DuplicateComplaints(def.name, seen)) + At(path, OwnComplaints(def)) + below + rest)
      == |DuplicateComplaints(def.name, seen)| + Duplicates(below) + Duplicates(rest)
  {
    var dup, own := At(path, DuplicateComplaints(def.name, seen)), At(path, OwnComplaints(def));
    OwnIsNoDuplicate(def);
    NoDuplicatesAmong(path, OwnComplaints(def));
    DuplicatesConcat(dup, own);
    DuplicatesConcat(dup + own, below);
    DuplicatesConcat(dup + own + below, rest);
  }

  /** The recursion goes through the names like one loop over the flattened tree. */
  lemma {:induction false} CheckNames(path: seq<nat>, imports: seq<ImportDef>, i: nat, seen: set<string>)
    requires i <= |imports|
    ensures var names, r := NamesOf(Flatten(imports[i..])), CheckFrom(path, imports, i, seen);
      r.names == seen + Elements(names) && Duplicates(r.errors) == Repeats(names, seen)
    decreases imports, |imports| - i
  {
    if i < |imports| {
      var def := imports[i];
      var own := WithName(seen, def.name);
      var below := CheckFrom(path + [i], def.conditional, 0, own);
      var rest := CheckFrom(path, imports, i + 1, below.names);
      assert def.conditional[0..] == def.conditional;
      CheckNames(path + [i], def.conditional, 0, own);
      CheckNames(path, imports, i + 1, below.names);
      RepeatsOfStep(imports, i, seen);
      DuplicatesOfStep(path + [i], def, seen, below.errors, rest.errors);
    } else {
      assert imports[i..] == [];
    }
  }

  /** How many names of a list were not seen before. */
  lemma NewNames(name: string, rest: seq<string>, seen: set<string>)
    ensures |Elements([name] + rest) - seen| == (if name in seen then 0 else 1) + |Elements(rest) - (seen + {name})|
  {
    var more := Elements(rest) - (seen + {name});
    assert Elements([name] + rest) - seen == if name in seen then more else more + {name};
  }

  /** Repetitions are the names that bring nothing new. */
  lemma {:induction false} RepeatsByCounting(names: seq<string>, seen: set<string>)
    ensures |Elements(names) - seen| <= |names|
    ensures Repeats(names, seen) == |names| - |Elements(names) - seen|
  {
    if names == [] {
      assert Elements(names) - seen == {};
    } else {
      var rest := names[1..];
      RepeatsByCounting(rest, seen + {names[0]});
      assert names == [names[0]] + rest;
      NewNames(names[0], rest, seen);
    }
  }

  /**
   Started with a name set, the check adds exactly the non-empty names of the whole tree, and reports as many
   duplicates as there are names that were not new.
   */
  lemma TreeNames(path: seq<nat>, imports: seq<ImportDef>, seen: set<string>)
    ensures var names, r := NamesOf(Flatten(imports)), CheckFrom(path, imports, 0, seen);
      && r.names == seen + Elements(names)
      && Duplicates(r.errors) == |names| - |Elements(names) - seen|
  {
    CheckNames(path, imports, 0, seen);
    assert imports[0..] == imports;
    RepeatsByCounting(NamesOf(Flatten(imports)), seen);
  }

  /** Starting from nothing, no duplicate is reported exactly when all non-empty names at all depths differ. */
  lemma NoDuplicatesIff(imports: seq<ImportDef>)
    ensures Duplicates(CheckImports(imports).errors) == 0 <==> Distinct(NamesOf(Flatten(imports)))
  {
    var names := NamesOf(Flatten(imports));
    TreeNames([], imports, {});
    DistinctSize(names);
    assert Elements(names) - {} == Elements(names);
  }

  // ---------- Acceptance ----------

  /**
   The type, if given, is known and exactly its fields are set; without a type exactly one of schema and target
   type is set.
   */
  predicate ConfigOk(def: ImportDef) {
    var schemaSet, targetTypeSet := def.schema.Some?, def.targetType != "";
    if def.importType == "" then schemaSet != targetTypeSet
    else if def.importType == "data" then schemaSet && !targetTypeSet
    else if def.importType == "target" || def.importType == "targetList" then !schemaSet && targetTypeSet
    else
      && (def.importType == "componentDescriptor" || def.importType == "componentDescriptorList")
      && !schemaSet && !targetTypeSet
  }

  predicate DefinitionOk(def: ImportDef) {
    ConfigOk(def) && def.name != "" && (def.conditional != [] ==> def.required == Some(false))
  }

  lemma AsComplaintsEmpty(errs: seq<ConfigError>)
    ensures AsComplaints(errs) == [] <==> errs == []
  {
  }

  lemma ConfigErrorsEmpty(schemaSet: bool, targetTypeSet: bool, expected: seq<string>)
    ensures ConfigErrors(schemaSet, targetTypeSet, expected) == [] <==>
      (schemaSet <==> SCHEMA in expected) && (targetTypeSet <==> TARGET_TYPE in expected)
  {
  }

  /** The types by name. */
  lemma TypesDiffer()
    ensures Distinct(["", DATA, TARGET, TARGET_LIST, COMPONENT_DESCRIPTOR, COMPONENT_DESCRIPTOR_LIST])
    ensures SCHEMA != TARGET_TYPE
  {
    assert |DATA| == 4 && |TARGET| == 6 && |TARGET_LIST| == 10;
    assert |COMPONENT_DESCRIPTOR| == 19 && |COMPONENT_DESCRIPTOR_LIST| == 23;
    assert |SCHEMA| == 6 && |TARGET_TYPE| == 10;
  }

  lemma ExpectedConfig(t: string)
    requires t in IMPORT_TYPES_WITH_EXPECTED_CONFIG
    ensures var expected := IMPORT_TYPES_WITH_EXPECTED_CONFIG[t];
      (SCHEMA in expected <==> t == DATA) && (TARGET_TYPE in expected <==> t == TARGET || t == TARGET_LIST)
  {
    TypesDiffer();
  }

  lemma ConfigOkIff(def: ImportDef)
    ensures ImportConfigComplaints(def) == [] <==> ConfigOk(def)
  {
    TypesDiffer();
    if def.importType in IMPORT_TYPES_WITH_EXPECTED_CONFIG {
      var expected := IMPORT_TYPES_WITH_EXPECTED_CONFIG[def.importType];
      ExpectedConfig(def.importType);
      ConfigErrorsEmpty(def.schema.Some?, def.targetType != "", expected);
      AsComplaintsEmpty(ConfigErrors(def.schema.Some?, def.targetType != "", expected));
    }
  }

  lemma AtEmpty(path: seq<nat>, complaints: seq<Complaint>)
    ensures At(path, complaints) == [] <==> complaints == []
  {
  }

  lemma OwnComplaintsEmpty(def: ImportDef)
    ensures OwnComplaints(def) == [] <==> DefinitionOk(def)
  {
    ConfigOkIff(def);
  }

  predicate AllOk(defs: seq<ImportDef>) {
    forall k :: 0 <= k < |defs| ==> DefinitionOk(defs[k])
  }

  /** Every definition is in order, and no name is among those seen or occurs twice. */
  predicate Clean(defs: seq<ImportDef>, seen: set<string>) {
    AllOk(defs) && Repeats(NamesOf(defs), seen) == 0
  }

  lemma AllOkConcat(a: seq<ImportDef>, b: seq<ImportDef>, c: seq<ImportDef>)
    ensures AllOk(a + b + c) <==> AllOk(a) && AllOk(b) && AllOk(c)
  {
    var s := a + b + c;
    assert forall k :: 0 <= k < |a| ==> a[k] == s[k];
    assert forall k :: 0 <= k < |b| ==> b[k] == s[|a| + k];
    assert forall k :: 0 <= k < |c| ==> c[k] == s[|a| + |b| + k];
  }

  lemma CleanStep(imports: seq<ImportDef>, i: nat, seen: set<string>)
    requires i < |imports|
    ensures var def := imports[i];
      var own := WithName(seen, def.name);
      Clean(Flatten(imports[i..]), seen) <==>
        && |DuplicateComplaints(def.name, seen)| == 0 && DefinitionOk(def)
        && Clean(Flatten(def.conditional), own)
        && Clean(Flatten(imports[i + 1..]), own + Elements(NamesOf(Flatten(def.conditional))))
  {
    RepeatsOfStep(imports, i, seen);
    FlattenStep(imports, i);
    AllOkConcat([imports[i]], Flatten(imports[i].conditional), Flatten(imports[i + 1..]));
    assert AllOk([imports[i]]) <==> DefinitionOk([imports[i]][0]);
  }

  lemma StepEmpty(path: seq<nat>, def: ImportDef, seen: set<string>, below: seq<DefError>, rest: seq<DefError>)
    ensures At(path, DuplicateComplaints(def.name, seen)) + At(path, OwnComplaints(def)) + below + rest == [] <==>
      |DuplicateComplaints(def.name, seen)| == 0 && DefinitionOk(def) && below == [] && rest == []
  {
    OwnComplaintsEmpty(def);
    AtEmpty(path, OwnComplaints(def));
    AtEmpty(path, DuplicateComplaints(def.name, seen));
    FourEmpty(At(path, DuplicateComplaints(def.name, seen)), At(path, OwnComplaints(def)), below, rest);
  }

  lemma {:induction false} CheckEmpty(path: seq<nat>, imports: seq<ImportDef>, i: nat, seen: set<string>)
    requires i <= |imports|
    ensures CheckFrom(path, imports, i, seen).errors == [] <==> Clean(Flatten(imports[i..]), seen)
    decreases imports, |imports| - i
  {
    if i < |imports| {
      var def := imports[i];
      var own := WithName(seen, def.name);
      var below := CheckFrom(path + [i], def.conditional, 0, own);
      var rest := CheckFrom(path, imports, i + 1, below.names);
      assert def.conditional[0..] == def.conditional;
      CheckEmpty(path + [i], def.conditional, 0, own);
      CheckEmpty(path, imports, i + 1, below.names);
      CheckNames(path + [i], def.conditional, 0, own);
      StepEmpty(path + [i], def, seen, below.errors, rest.errors);
      CleanStep(imports, i, seen);
    } else {
      assert imports[i..] == [];
    }
  }

  /** An import tree is accepted exactly when every definition at every depth is in order and all names differ. */
  lemma ImportsAcceptedIff(imports: seq<ImportDef>)
    ensures CheckImports(imports).errors == [] <==>
      && (forall k :: 0 <= k < |Flatten(imports)| ==> DefinitionOk(Flatten(imports)[k]))
      && Distinct(NamesOf(Flatten(imports)))
  {
    CheckEmpty([], imports, 0, {});
    assert imports[0..] == imports;
    RepeatsByCounting(NamesOf(Flatten(imports)), {});
    DistinctSize(NamesOf(Flatten(imports)));
    assert Elements(NamesOf(Flatten(imports))) - {} == Elements(NamesOf(Flatten(imports)));
  }

  // ---------- Defaulting ----------

  /** Defaulting a definition does not change what is wrong with it. */
  lemma DefaultKeepsComplaints(def: ImportDef)
    ensures OwnComplaints(DefaultImport(def)) == OwnComplaints(def)
  {
    var d := DefaultImport(def);
    TypesDiffer();
    assert |d.conditional| == |def.conditional|;
    if def.importType == "" && !(def.schema.Some? && def.targetType != "") && d.importType != "" {
      ConfigOkIff(d);
      ConfigOkIff(def);
    }
  }

  /** For every import tree, validation reports the same errors at the same positions before and after defaulting. */
  lemma {:induction false} DefaultKeepsVerdict(path: seq<nat>, imports: seq<ImportDef>, i: nat, seen: set<string>)
    requires i <= |imports|
    ensures CheckFrom(path, DefaultImports(imports), i, seen) == CheckFrom(path, imports, i, seen)
    decreases imports, |imports| - i
  {
    if i < |imports| {
      var def := imports[i];
      DefaultKeepsComplaints(def);
      DefaultKeepsVerdict(path + [i], def.conditional, 0, WithName(seen, def.name));
      DefaultKeepsVerdict(path, imports, i + 1,
                          CheckFrom(path + [i], def.conditional, 0, WithName(seen, def.name)).names);
    }
  }

  lemma QualifiedOnce(t: string)
    ensures QualifiedTargetType(QualifiedTargetType(t)) == QualifiedTargetType(t)
    ensures QualifiedTargetType(t) == "" <==> t == ""
  {
    if t != "" && '/' !in t {
      var q := QualifiedTargetType(t);
      assert q[|LANDSCAPER_DOMAIN|] == '/';
    }
  }

  /** Defaulting twice is defaulting once. */
  lemma {:induction false} DefaultImportTwice(def: ImportDef)
    ensures DefaultImport(DefaultImport(def)) == DefaultImport(def)
    decreases def
  {
    DefaultImportsTwice(def.conditional);
    QualifiedOnce(def.targetType);
    TypesDiffer();
  }

  lemma {:induction false} DefaultImportsTwice(imports: seq<ImportDef>)
    ensures DefaultImports(DefaultImports(imports)) == DefaultImports(imports)
    decreases imports
  {
    forall i | 0 <= i < |imports| ensures DefaultImport(DefaultImport(imports[i])) == DefaultImport(imports[i]) {
      DefaultImportTwice(imports[i]);
    }
  }

  lemma FlattenFirst(def: ImportDef, rest: seq<ImportDef>)
    ensures Flatten([def] + rest) == [def] + Flatten(def.conditional) + Flatten(rest)
  {
    assert ([def] + rest)[1..] == rest;
  }

  lemma DefaultImportsConcat(a: seq<ImportDef>, b: seq<ImportDef>)
    ensures DefaultImports(a + b) == DefaultImports(a) + DefaultImports(b)
  {
    var left, right := DefaultImports(a + b), DefaultImports(a) + DefaultImports(b);
    forall i | 0 <= i < |left| ensures left[i] == right[i] {
      assert left[i] == DefaultImport(if i < |a| then a[i] else b[i - |a|]);
    }
  }

  lemma {:induction false} FlattenDefaulted(imports: seq<ImportDef>)
    ensures Flatten(DefaultImports(imports)) == DefaultImports(Flatten(imports))
    decreases imports
  {
    if imports != [] {
      var first, below, rest := [imports[0]], Flatten(imports[0].conditional), Flatten(imports[1..]);
      FlattenDefaulted(imports[0].conditional);
      FlattenDefaulted(imports[1..]);
      assert imports == first + imports[1..];
      DefaultImportsConcat(first, imports[1..]);
      DefaultImportsConcat(first, below);
      DefaultImportsConcat(first + below, rest);
      assert DefaultImports(first) == [DefaultImport(imports[0])];
      FlattenFirst(DefaultImport(imports[0]), DefaultImports(imports[1..]));
    }
  }

  /** After defaulting, every definition at every depth says whether it is required. */
  lemma RequiredEverywhere(imports: seq<ImportDef>)
    ensures forall k :: 0 <= k < |Flatten(DefaultImports(imports))| ==>
      Flatten(DefaultImports(imports))[k].required.Some?
  {
    FlattenDefaulted(imports);
  }

  /** The type of a definition that was written without one. */
  predicate InferredType(schema: Option<string>, targetType: string, t: string) {
    if schema.Some? && targetType == "" then t == "data"
    else if schema.None? && targetType != "" then t == "target"
    else t == ""
  }

  /** A target type that stands alone and names no domain. */
  predicate Unqualified(schema: Option<string>, targetType: string) {
    schema.None? && targetType != "" && '/' !in targetType
  }

  lemma DomainLiteral(t: string)
    ensures LANDSCAPER_DOMAIN + "/" + t == "landscaper.gardener.cloud/" + t
    ensures "" + t == t
  {
    assert LANDSCAPER_DOMAIN + "/" == "landscaper.gardener.cloud/";
  }

  /**
   What defaulting makes of every part of a definition: a missing type is inferred, an unqualified target type of
   a target gets the domain, and nothing else changes.
   */
  lemma DefaultedImportParts(def: ImportDef)
    ensures var r := DefaultImport(def);
      && r.name == def.name && r.schema == def.schema && r.conditional == DefaultImports(def.conditional)
      && r.required == Some(def.required != Some(false))
      && (def.importType != "" ==> r.importType == def.importType)
      && (def.importType == "" ==> InferredType(def.schema, def.targetType, r.importType))
      && r.targetType == (if Unqualified(def.schema, def.targetType) && def.importType in {"", "target", "targetList"}
                          then "landscaper.gardener.cloud/" else "") + def.targetType
  {
    TypesDiffer();
    DomainLiteral(def.targetType);
  }

  // ---------- Exports ----------

  lemma DefaultedExportParts(def: ExportDef)
    ensures var r := DefaultExport(def);
      && r.name == def.name && r.schema == def.schema
      && (def.exportType != "" ==> r.exportType == def.exportType)
      && (def.exportType == "" ==> InferredType(def.schema, def.targetType, r.exportType))
      && r.targetType == (if Unqualified(def.schema, def.targetType) && def.exportType in {"", "target"}
                          then "landscaper.gardener.cloud/" else "") + def.targetType
  {
    TypesDiffer();
    DomainLiteral(def.targetType);
  }

  lemma DefaultExportTwice(def: ExportDef)
    ensures DefaultExport(DefaultExport(def)) == DefaultExport(def)
  {
    QualifiedOnce(def.targetType);
    TypesDiffer();
  }

  /** Without a type an export never passes its config check: the check does not see the fields it asks for. */
  lemma UntypedExportRejected(def: ExportDef)
    requires def.exportType == ""
    ensures ExportConfigComplaints(def) == [NotExactlyOne(NoneSet)]
  {
    var fields := ExportFields(def);
    assert fields[..1] == [fields[0]] && fields[..1][..0] == [];
    assert fields[0].name == "FieldValueDefinition" && fields[1].name == "Type";
    assert |fields[0].name| == 20 && |fields[1].name| == 4 && |SCHEMA| == 6 && |TARGET_TYPE| == 10;
    assert SetFields(fields[..1], [SCHEMA, TARGET_TYPE]) == [];
    assert SetFields(fields, [SCHEMA, TARGET_TYPE]) == [];
  }

  lemma ExpectedExportConfig(t: string)
    requires t in EXPORT_TYPES_WITH_EXPECTED_CONFIG
    ensures var expected := EXPORT_TYPES_WITH_EXPECTED_CONFIG[t];
      (SCHEMA in expected <==> t == DATA) && (TARGET_TYPE in expected <==> t == TARGET)
  {
    TypesDiffer();
  }

  /**
   An export that was written without a type passes after defaulting exactly when one of schema and target type
   was given.
   */
  lemma DefaultedExportPassesIff(def: ExportDef)
    requires def.exportType == ""
    ensures ExportConfigComplaints(DefaultExport(def)) == [] <==> (def.schema.Some? <==> def.targetType == "")
  {
    var d := DefaultExport(def);
    TypesDiffer();
    QualifiedOnce(def.targetType);
    if d.exportType == "" {
      UntypedExportRejected(d);
    } else {
      assert d.exportType in EXPORT_TYPES_WITH_EXPECTED_CONFIG;
      var expected := EXPORT_TYPES_WITH_EXPECTED_CONFIG[d.exportType];
      ExpectedExportConfig(d.exportType);
      ConfigErrorsEmpty(d.schema.Some?, d.targetType != "", expected);
      AsComplaintsEmpty(ConfigErrors(d.schema.Some?, d.targetType != "", expected));
    }
  }

  /**
   Hence defaulting keeps the verdict on an export exactly when it has a type or there is nothing unambiguous
   to infer one from.
   */
  lemma DefaultKeepsExportVerdictIff(def: ExportDef)
    ensures (ExportConfigComplaints(DefaultExport(def)) == [] <==> ExportConfigComplaints(def) == []) <==>
      (def.exportType != "" || (def.schema.Some? <==> def.targetType != ""))
  {
    if def.exportType == "" {
      UntypedExportRejected(def);
      DefaultedExportPassesIff(def);
    } else {
      QualifiedOnce(def.targetType);
    }
  }

  /** A data export has a schema only, a target export a target type only; there is no other export. */
  predicate ExportConfigOk(def: ExportDef) {
    if def.exportType == "data" then def.schema.Some? && def.targetType == ""
    else def.exportType == "target" && def.schema.None? && def.targetType != ""
  }

  lemma ExportConfigOkIff(def: ExportDef)
    ensures ExportConfigComplaints(def) == [] <==> ExportConfigOk(def)
  {
    TypesDiffer();
    if def.exportType == "" {
      UntypedExportRejected(def);
    } else if def.exportType in EXPORT_TYPES_WITH_EXPECTED_CONFIG {
      var expected := EXPORT_TYPES_WITH_EXPECTED_CONFIG[def.exportType];
      ExpectedExportConfig(def.exportType);
      ConfigErrorsEmpty(def.schema.Some?, def.targetType != "", expected);
      AsComplaintsEmpty(ConfigErrors(def.schema.Some?, def.targetType != "", expected));
    }
  }

  predicate ExportOk(exports: seq<ExportDef>, i: nat)
    requires i < |exports|
  {
    && exports[i].name != "" && ExportConfigOk(exports[i])
    && forall k :: 0 <= k < i ==> exports[k].name != exports[i].name
  }

  lemma ExportComplaintsEmpty(exports: seq<ExportDef>, i: nat)
    requires i < |exports|
    ensures ExportComplaints(exports, i) == [] <==> ExportOk(exports, i)
  {
    ExportConfigOkIff(exports[i]);
    assert exports[i].name in ExportNames(exports, i) <==> exists k :: 0 <= k < i && exports[k].name == exports[i].name;
  }

  /**
   A list of exports is accepted exactly when the names are not empty and differ, and every definition passes
   its config check.
   */
  lemma ExportsAcceptedIff(exports: seq<ExportDef>)
    ensures ConcatAll(ExportErrors(exports)) == [] <==> forall i :: 0 <= i < |exports| ==> ExportOk(exports, i)
  {
    ConcatAllEmpty(ExportErrors(exports));
    forall i | 0 <= i < |exports| ensures ExportErrors(exports)[i] == [] <==> ExportOk(exports, i) {
      AtEmpty([i], ExportComplaints(exports, i));
      ExportComplaintsEmpty(exports, i);
    }
  }
}
