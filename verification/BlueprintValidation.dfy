/**
 The validation of import and export definitions as it is performed: loops that append to a list of errors,
 over one set of names for the whole tree.
 */
module BlueprintValidation {
  import opened Basics
  import opened StringSets
  import opened ConfigChecks
  import opened BlueprintDefinitions

  function Collected(path: seq<nat>, errs: seq<ConfigError>): seq<DefError> {
    At(path, AsComplaints(errs))
  }

  /** As one error each, all about the same definition. */
  method Collect(path: seq<nat>, errs: seq<ConfigError>) returns (r: seq<DefError>)
    ensures r == Collected(path, errs)
  {
    r := [];
    for i := 0 to |errs|
      invariant r + Collected(path, errs[i..]) == Collected(path, errs)
    {
      assert errs[i..][1..] == errs[i + 1..];
      r := r + [DefError(path, Config(errs[i]))];
    }
  }

  lemma {:induction false} CollectedConcat(path: seq<nat>, a: seq<ConfigError>, b: seq<ConfigError>)
    ensures Collected(path, a + b) == Collected(path, a) + Collected(path, b)
  {
    if a == [] {
      assert a + b == b;
    } else {
      CollectedConcat(path, a[1..], b);
      assert (a + b)[0] == a[0] && (a + b)[1..] == a[1..] + b;
      Associative([DefError(path, Config(a[0]))], Collected(path, a[1..]), Collected(path, b));
    }
  }

  lemma {:induction false} CollectedCounts(path: seq<nat>, a: seq<ConfigError>, b: seq<ConfigError>)
    requires SameCounts(a, b)
    ensures SameCounts(Collected(path, a), Collected(path, b))
  {
    if a == [] {
      assert |multiset(b)| == 0;
    } else {
      var front, back := CutOut(a, b);
      CollectedCounts(path, a[1..], front + back);
      CollectedConcat(path, front, back);
      CollectedConcat(path, front, [a[0]] + back);
      CollectedConcat(path, [a[0]], back);
      assert a == [a[0]] + a[1..];
      CollectedConcat(path, [a[0]], a[1..]);
      MoveToFront(Collected(path, [a[0]]), Collected(path, a[1..]), Collected(path, front), Collected(path, back));
    }
  }

  lemma {:induction false} AtConcat(path: seq<nat>, a: seq<Complaint>, b: seq<Complaint>)
    ensures At(path, a + b) == At(path, a) + At(path, b)
  {
    if a == [] {
      assert a + b == b;
    } else {
      AtConcat(path, a[1..], b);
      assert (a + b)[0] == a[0] && (a + b)[1..] == a[1..] + b;
      Associative([DefError(path, a[0])], At(path, a[1..]), At(path, b));
    }
  }

  method ValidateImportConfig(path: seq<nat>, def: ImportDef) returns (errs: seq<DefError>)
    ensures SameCounts(errs, At(path, ImportConfigComplaints(def)))
  {
    errs := [];
    if |def.importType| != 0 {
      if def.importType in IMPORT_TYPES_WITH_EXPECTED_CONFIG {
        var expected := IMPORT_TYPES_WITH_EXPECTED_CONFIG[def.importType];
        var found := ValidateMutuallyExclusiveConfig(def.schema.Some?, |def.targetType| != 0, expected);
        CollectedCounts(path, found, ConfigErrors(def.schema.Some?, def.targetType != "", expected));
        errs := Collect(path, found);
      } else {
        errs := errs + [DefError(path, TypeNotSupported)];
      }
    } else {
      if def.schema.None? && |def.targetType| == 0 {
        errs := errs + [DefError(path, NeitherSchemaNorTargetType)];
      }
      if def.schema.Some? && |def.targetType| != 0 {
        errs := errs + [DefError(path, BothSchemaAndTargetType)];
      }
    }
  }

  lemma OwnInParts(path: seq<nat>, def: ImportDef)
    ensures At(path, OwnComplaints(def)) ==
      At(path, ImportConfigComplaints(def)) + At(path, ConditionalComplaints(def)) + At(path, NameComplaints(def.name))
  {
    AtConcat(path, ImportConfigComplaints(def), ConditionalComplaints(def));
    AtConcat(path, ImportConfigComplaints(def) + ConditionalComplaints(def), NameComplaints(def.name));
  }

  /** Everything about one definition but its conditional imports. */
  method ValidateOwn(path: seq<nat>, def: ImportDef) returns (errs: seq<DefError>)
    ensures SameCounts(errs, At(path, OwnComplaints(def)))
  {
    var config := ValidateImportConfig(path, def);
    var conditional: seq<DefError>, name: seq<DefError> := [], [];
    var required := true;
    if def.required.Some? {
      required := def.required.value;
    }
    if |def.conditional| > 0 && required {
      conditional := [DefError(path, ConditionalOnRequired)];
    }
    if |def.name| == 0 {
      name := [DefError(path, NameMissing)];
    }
    assert conditional == At(path, ConditionalComplaints(def)) && name == At(path, NameComplaints(def.name));
    OwnInParts(path, def);
    SameCountsConcat(config, conditional, At(path, ImportConfigComplaints(def)), conditional);
    SameCountsConcat(config + conditional, name, At(path, ImportConfigComplaints(def)) + conditional, name);
    errs := config + conditional + name;
  }

  /** The errors about the definition at position `i` and below it. */
  function ErrorsBelow(path: seq<nat>, imports: seq<ImportDef>, i: nat, seen: set<string>): ImportCheck
    requires i < |imports|
  {
    var def := imports[i];
    var below := CheckFrom(path + [i], def.conditional, 0, WithName(seen, def.name));
    ImportCheck(below.names,
      At(path + [i], DuplicateComplaints(def.name, seen)) + At(path + [i], OwnComplaints(def)) + below.errors)
  }

  /** What has been found, and what the check of the remaining definitions will find, are the errors of all of them. */
  ghost predicate Threaded(path: seq<nat>, imports: seq<ImportDef>, i: nat, start: set<string>, seen: set<string>,
                           errs: seq<DefError>)
  {
    i <= |imports| &&
    var all, rest := CheckFrom(path, imports, 0, start), CheckFrom(path, imports, i, seen);
    rest.names == all.names && SameCounts(errs + rest.errors, all.errors)
  }

  lemma Exchange<T>(a: seq<T>, b: seq<T>, b': seq<T>, c: seq<T>, all: seq<T>)
    requires SameCounts(a + (b' + c), all) && SameCounts(b, b')
    ensures SameCounts(a + b + c, all)
  {
    CountsOfConcat(b', c);
    CountsOfConcat(a, b' + c);
    CountsOfConcat(a, b);
    CountsOfConcat(a + b, c);
  }

  lemma ThreadedStep(path: seq<nat>, imports: seq<ImportDef>, i: nat, start: set<string>, seen: set<string>,
                     errs: seq<DefError>, found: seq<DefError>)
    requires Threaded(path, imports, i, start, seen, errs) && i < |imports|
    requires SameCounts(found, ErrorsBelow(path, imports, i, seen).errors)
    ensures Threaded(path, imports, i + 1, start, ErrorsBelow(path, imports, i, seen).names, errs + found)
  {
    var here := ErrorsBelow(path, imports, i, seen);
    var rest := CheckFrom(path, imports, i + 1, here.names).errors;
    assert CheckFrom(path, imports, i, seen).errors == here.errors + rest;
    Exchange(errs, found, here.errors, rest, CheckFrom(path, imports, 0, start).errors);
  }

  lemma AtOne(path: seq<nat>, complaint: Complaint)
    ensures At(path, []) == [] && At(path, [complaint]) == [DefError(path, complaint)]
  {
  }

  /** The first step of every round. */
  method EnterImportName(path: seq<nat>, name: string, importNames: StringSet) returns (dup: seq<DefError>)
    modifies importNames
    ensures dup == At(path, DuplicateComplaints(name, old(importNames.elems)))
    ensures importNames.elems == WithName(old(importNames.elems), name)
  {
    dup := [];
    AtOne(path, DuplicateName);
    if |name| != 0 {
      if importNames.Has(name) {
        dup := [DefError(path, DuplicateName)];
      }
      importNames.Insert(name);
    }
  }

  method ValidateBlueprintImportDefinitions(path: seq<nat>, imports: seq<ImportDef>, importNames: StringSet)
    returns (names: StringSet, allErrs: seq<DefError>)
    modifies importNames
    ensures names == importNames
    ensures var r := CheckFrom(path, imports, 0, old(importNames.elems));
      names.elems == r.names && SameCounts(allErrs, r.errors)
    decreases imports, 1
  {
    allErrs := [];
    assert [] + CheckFrom(path, imports, 0, importNames.elems).errors ==
      CheckFrom(path, imports, 0, importNames.elems).errors;
    for i := 0 to |imports|
      invariant Threaded(path, imports, i, old(importNames.elems), importNames.elems, allErrs)
    {
      ghost var seen := importNames.elems;
      var errs := ValidateImportDefinition(path, imports, i, importNames);
      ThreadedStep(path, imports, i, old(importNames.elems), seen, allErrs, errs);
      allErrs := allErrs + errs;
    }
    assert allErrs + [] == allErrs;
    names := importNames;
  }

  /** One round of the loop above, with the recursion into the conditional imports. */
  method ValidateImportDefinition(path: seq<nat>, imports: seq<ImportDef>, i: nat, importNames: StringSet)
    returns (errs: seq<DefError>)
    requires i < |imports|
    modifies importNames
    ensures var r := ErrorsBelow(path, imports, i, old(importNames.elems));
      importNames.elems == r.names && SameCounts(errs, r.errors)
    decreases imports, 0
  {
    var importDef := imports[i];
    ghost var seen := importNames.elems;
    var dup := EnterImportName(path + [i], importDef.name, importNames);
    var own := ValidateOwn(path + [i], importDef);
    var conditionalNames, tmpErrs := ValidateBlueprintImportDefinitions(path + [i], importDef.conditional, importNames);
    ghost var below := CheckFrom(path + [i], importDef.conditional, 0, WithName(seen, importDef.name));
    SameCountsConcat(dup, own, dup, At(path + [i], OwnComplaints(importDef)));
    SameCountsConcat(dup + own, tmpErrs, dup + At(path + [i], OwnComplaints(importDef)), below.errors);
    errs := dup + own + tmpErrs;
    var list := conditionalNames.UnsortedList();
    importNames.InsertAll(list);
    assert importNames.elems == below.names;
  }

  method ValidateImports(imports: seq<ImportDef>) returns (allErrs: seq<DefError>)
    ensures SameCounts(allErrs, CheckImports(imports).errors)
  {
    var fresh' := new StringSet();
    var names;
    names, allErrs := ValidateBlueprintImportDefinitions([], imports, fresh');
  }

  method ValidateExportConfig(path: seq<nat>, def: ExportDef) returns (errs: seq<DefError>)
    ensures SameCounts(errs, At(path, ExportConfigComplaints(def)))
  {
    errs := [];
    if |def.exportType| != 0 {
      if def.exportType in EXPORT_TYPES_WITH_EXPECTED_CONFIG {
        var expected := EXPORT_TYPES_WITH_EXPECTED_CONFIG[def.exportType];
        var found := ValidateMutuallyExclusiveConfig(def.schema.Some?, |def.targetType| != 0, expected);
        CollectedCounts(path, found, ConfigErrors(def.schema.Some?, def.targetType != "", expected));
        errs := Collect(path, found);
      } else {
        errs := errs + [DefError(path, TypeNotSupported)];
      }
    } else {
      var verdict := ValidateExactlyOneOf(ExportFields(def), [SCHEMA, TARGET_TYPE]);
      if verdict != ExactlyOne {
        errs := errs + [DefError(path, NotExactlyOne(verdict))];
      }
    }
  }

  method ValidateExport(i: nat, def: ExportDef, exportNames: StringSet) returns (errs: seq<DefError>)
    modifies exportNames
    ensures exportNames.elems == old(exportNames.elems) + {def.name}
    ensures SameCounts(errs,
      At([i], NameComplaints(def.name) + DuplicateComplaints(def.name, old(exportNames.elems))
              + ExportConfigComplaints(def)))
  {
    errs := [];
    if |def.name| == 0 {
      errs := errs + [DefError([i], NameMissing)];
    }
    if |def.name| != 0 && exportNames.Has(def.name) {
      errs := errs + [DefError([i], DuplicateName)];
    }
    ghost var first := NameComplaints(def.name) + DuplicateComplaints(def.name, exportNames.elems);
    assert errs == At([i], first);
    exportNames.Insert(def.name);
    var config := ValidateExportConfig([i], def);
    AtConcat([i], first, ExportConfigComplaints(def));
    SameCountsConcat(errs, config, At([i], first), At([i], ExportConfigComplaints(def)));
    errs := errs + config;
  }

  lemma ExportNamesStep(exports: seq<ExportDef>, i: nat)
    requires i < |exports|
    ensures ExportNames(exports, i + 1) == ExportNames(exports, i) + {exports[i].name}
  {
  }

  method ValidateBlueprintExportDefinitions(exports: seq<ExportDef>) returns (allErrs: seq<DefError>)
    ensures SameCounts(allErrs, ConcatAll(ExportErrors(exports)))
  {
    allErrs := [];
    var exportNames := new StringSet();
    ghost var parts := ExportErrors(exports);
    for i := 0 to |exports|
      invariant fresh(exportNames) && exportNames.elems == ExportNames(exports, i)
      invariant SameCounts(allErrs, ConcatAll(parts[..i]))
    {
      var errs := ValidateExport(i, exports[i], exportNames);
      ExportNamesStep(exports, i);
      ConcatAllStep(parts, i);
      SameCountsConcat(allErrs, errs, ConcatAll(parts[..i]), parts[i]);
      allErrs := allErrs + errs;
    }
    assert parts[..|exports|] == parts;
  }
}
