/**
 Which complaint is made about which definition of a blueprint: each one that is due once, at its place, and no
 other.
 */
module BlueprintReports {
  import opened Basics
  import opened Counting
  import opened ConfigChecks
  import opened BlueprintDefinitions
  import opened BlueprintDefinitionLaws

  // ---------- What is wrong with one definition ----------

  predicate OfTargets(t: string) {
    t == "target" || t == "targetList"
  }

  predicate OfDescriptors(t: string) {
    t == "componentDescriptor" || t == "componentDescriptorList"
  }

  /** The fault of an import definition that a complaint stands for, whatever the other definitions are. */
  predicate Faulty(def: ImportDef, complaint: Complaint) {
    match complaint
    case NameMissing => def.name == ""
    case ConditionalOnRequired => def.conditional != [] && def.required != Some(false)
    case TypeNotSupported =>
      def.importType != "" && def.importType != "data" && !OfTargets(def.importType) && !OfDescriptors(def.importType)
    case NeitherSchemaNorTargetType => def.importType == "" && def.schema.None? && def.targetType == ""
    case BothSchemaAndTargetType => def.importType == "" && def.schema.Some? && def.targetType != ""
    case Config(ConfigMissing(field)) =>
      || (field == "Schema" && def.schema.None? && def.importType == "data")
      || (field == "TargetType" && def.targetType == "" && OfTargets(def.importType))
    case Config(ConfigUnexpected(field)) =>
      || (field == "Schema" && def.schema.Some? && (OfTargets(def.importType) || OfDescriptors(def.importType)))
      || (field == "TargetType" && def.targetType != "" && (def.importType == "data" || OfDescriptors(def.importType)))
    case DuplicateName => false
    case NotExactlyOne(_) => false
  }

  lemma FieldTimes(key: string, isSet: bool, expected: seq<string>, e: ConfigError)
    ensures Times(FieldErrors(key, isSet, expected), e) ==
      Once(e == ConfigMissing(key) && key in expected && !isSet)
      + Once(e == ConfigUnexpected(key) && key !in expected && isSet)
  {
  }

  lemma {:induction false} AsComplaintsTimes(errs: seq<ConfigError>, complaint: Complaint)
    ensures Times(AsComplaints(errs), complaint) == if complaint.Config? then Times(errs, complaint.error) else 0
  {
    if errs != [] {
      AsComplaintsTimes(errs[1..], complaint);
      assert errs == [errs[0]] + errs[1..];
      assert AsComplaints(errs) == [Config(errs[0])] + AsComplaints(errs[1..]);
      TimesConcat([errs[0]], errs[1..], if complaint.Config? then complaint.error else errs[0]);
      TimesConcat([Config(errs[0])], AsComplaints(errs[1..]), complaint);
    }
  }

  lemma ConfigTimes(schemaSet: bool, targetTypeSet: bool, expected: seq<string>, complaint: Complaint)
    ensures Times(AsComplaints(ConfigErrors(schemaSet, targetTypeSet, expected)), complaint) ==
      match complaint
      case Config(ConfigMissing(f)) =>
        Once(f == "Schema" && "Schema" in expected && !schemaSet)
        + Once(f == "TargetType" && "TargetType" in expected && !targetTypeSet)
      case Config(ConfigUnexpected(f)) =>
        Once(f == "Schema" && "Schema" !in expected && schemaSet)
        + Once(f == "TargetType" && "TargetType" !in expected && targetTypeSet)
      case _ => 0
  {
    AsComplaintsTimes(ConfigErrors(schemaSet, targetTypeSet, expected), complaint);
    if complaint.Config? {
      FieldTimes(SCHEMA, schemaSet, expected, complaint.error);
      FieldTimes(TARGET_TYPE, targetTypeSet, expected, complaint.error);
      TimesConcat(FieldErrors(SCHEMA, schemaSet, expected), FieldErrors(TARGET_TYPE, targetTypeSet, expected),
                  complaint.error);
    }
  }

  /** The complaints about the configuration of an import definition. */
  predicate ConfigComplaint(complaint: Complaint) {
    || complaint.Config? || complaint.TypeNotSupported?
    || complaint.NeitherSchemaNorTargetType? || complaint.BothSchemaAndTargetType?
  }

  /** The table, by the names of the types. */
  lemma ImportTable(t: string)
    ensures t in IMPORT_TYPES_WITH_EXPECTED_CONFIG <==> t == "data" || OfTargets(t) || OfDescriptors(t)
    ensures t in IMPORT_TYPES_WITH_EXPECTED_CONFIG ==>
      var expected := IMPORT_TYPES_WITH_EXPECTED_CONFIG[t];
      ("Schema" in expected <==> t == "data") && ("TargetType" in expected <==> OfTargets(t))
  {
    TypesDiffer();
    if t in IMPORT_TYPES_WITH_EXPECTED_CONFIG {
      ExpectedConfig(t);
    }
  }

  lemma ImportConfigTimes(def: ImportDef, complaint: Complaint)
    ensures Times(ImportConfigComplaints(def), complaint) == Once(ConfigComplaint(complaint) && Faulty(def, complaint))
  {
    TypesDiffer();
    ImportTable(def.importType);
    if def.importType in IMPORT_TYPES_WITH_EXPECTED_CONFIG {
      ConfigTimes(def.schema.Some?, def.targetType != "", IMPORT_TYPES_WITH_EXPECTED_CONFIG[def.importType], complaint);
    }
  }

  lemma OwnTimes(def: ImportDef, complaint: Complaint)
    ensures Times(OwnComplaints(def), complaint) == Once(Faulty(def, complaint))
  {
    var config, conditional, name := ImportConfigComplaints(def), ConditionalComplaints(def), NameComplaints(def.name);
    ImportConfigTimes(def, complaint);
    TimesConcat(config, conditional, complaint);
    TimesConcat(config + conditional, name, complaint);
  }

  lemma {:induction false} AtTimes(path: seq<nat>, complaints: seq<Complaint>, e: DefError)
    ensures Times(At(path, complaints), e) == if e.path == path then Times(complaints, e.complaint) else 0
  {
    if complaints != [] {
      AtTimes(path, complaints[1..], e);
      assert complaints == [complaints[0]] + complaints[1..];
      TimesConcat([complaints[0]], complaints[1..], e.complaint);
      TimesConcat([DefError(path, complaints[0])], At(path, complaints[1..]), e);
    }
  }

  // ---------- Import definitions by position ----------

  /** The definition at a position of the tree. */
  function DefAt(imports: seq<ImportDef>, path: seq<nat>): Option<ImportDef>
    decreases |path|
  {
    if path == [] || path[0] >= |imports| then None
    else if |path| == 1 then Some(imports[path[0]])
    else DefAt(imports[path[0]].conditional, path[1..])
  }

  /**
   The names of the definitions from position `i` on that come before a position, each before its conditional
   imports.
   */
  function NamesBefore(imports: seq<ImportDef>, i: nat, path: seq<nat>): set<string>
    decreases imports, |imports| - i
  {
    if path == [] || i >= |imports| then {}
    else if path[0] == i then
      if |path| == 1 then {} else Elements(OwnName(imports[i])) + NamesBefore(imports[i].conditional, 0, path[1..])
    else
      Elements(OwnName(imports[i])) + Elements(NamesOf(Flatten(imports[i].conditional)))
      + NamesBefore(imports, i + 1, path)
  }

  /** A complaint about the definition at a position, from position `i` on, is due when the names `seen` came before. */
  predicate Due(imports: seq<ImportDef>, i: nat, seen: set<string>, path: seq<nat>, complaint: Complaint) {
    path != [] && path[0] >= i && DefAt(imports, path).Some? &&
    var def := DefAt(imports, path).value;
    if complaint == DuplicateName then def.name != "" && def.name in seen + NamesBefore(imports, i, path)
    else Faulty(def, complaint)
  }

  predicate Under(prefix: seq<nat>, path: seq<nat>) {
    |prefix| <= |path| && path[..|prefix|] == prefix
  }

  predicate DueUnder(prefix: seq<nat>, imports: seq<ImportDef>, i: nat, seen: set<string>, e: DefError) {
    Under(prefix, e.path) && Due(imports, i, seen, e.path[|prefix|..], e.complaint)
  }

  /** About the definition itself. */
  lemma DueHere(prefix: seq<nat>, imports: seq<ImportDef>, i: nat, seen: set<string>, names: set<string>, e: DefError)
    requires i < |imports| && e.path == prefix + [i]
    ensures Under(prefix, e.path) && e.path[|prefix|..] == [i]
    ensures DueUnder(prefix, imports, i, seen, e) <==>
      if e.complaint ==
        DuplicateName then imports[i].name != "" && imports[i].name in seen else Faulty(imports[i], e.complaint)
    ensures !DueUnder(prefix + [i], imports[i].conditional, 0, WithName(seen, imports[i].name), e)
    ensures !DueUnder(prefix, imports, i + 1, names, e)
  {
    assert e.path[..|prefix|] == prefix && e.path[|prefix|..] == [i];
    assert e.path[|prefix + [i]|..] == [];
  }

  /** About a definition below it. */
  lemma DueBelow(prefix: seq<nat>, imports: seq<ImportDef>, i: nat, seen: set<string>, names: set<string>, e: DefError)
    requires i < |imports| && Under(prefix + [i], e.path) && e.path != prefix + [i]
    ensures DueUnder(prefix, imports, i, seen, e) <==>
      DueUnder(prefix + [i], imports[i].conditional, 0, WithName(seen, imports[i].name), e)
    ensures !DueUnder(prefix, imports, i + 1, names, e)
  {
    var q := e.path[|prefix|..];
    assert e.path[..|prefix|] == e.path[..|prefix + [i]|][..|prefix|] == prefix;
    assert q[0] == (prefix + [i])[|prefix|] == i;
    assert e.path[|prefix + [i]|..] == q[1..];
    assert seen + (Elements(OwnName(imports[i])) + NamesBefore(imports[i].conditional, 0, q[1..])) ==
      WithName(seen, imports[i].name) + NamesBefore(imports[i].conditional, 0, q[1..]);
  }

  lemma UnderLonger(prefix: seq<nat>, path: seq<nat>)
    requires Under(prefix, path)
    ensures |prefix| < |path| ==> Under(prefix + [path[|prefix|..][0]], path)
  {
    if |prefix| < |path| {
      assert path[..|prefix| + 1] == prefix + [path[|prefix|]];
    }
  }

  /** About a definition that is not at or below it. */
  lemma DueElsewhere(prefix: seq<nat>, imports: seq<ImportDef>, i: nat, seen: set<string>, names: set<string>,
                     e: DefError)
    requires i < |imports| && !Under(prefix + [i], e.path)
    requires names == WithName(seen, imports[i].name) + Elements(NamesOf(Flatten(imports[i].conditional)))
    ensures DueUnder(prefix, imports, i, seen, e) <==> DueUnder(prefix, imports, i + 1, names, e)
  {
    if Under(prefix, e.path) {
      var q := e.path[|prefix|..];
      UnderLonger(prefix, e.path);
      if q != [] && q[0] > i {
        assert seen + NamesBefore(imports, i, q) == names + NamesBefore(imports, i + 1, q);
      }
    }
  }

  lemma FourTimes(path: seq<nat>, dup: seq<Complaint>, own: seq<Complaint>, below: seq<DefError>, rest: seq<DefError>,
                  e: DefError)
    ensures Times(At(path, dup) + At(path, own) + below + rest, e) ==
      (if e.path ==
        path then Times(dup, e.complaint) + Times(own, e.complaint) else 0) + Times(below, e) + Times(rest, e)
  {
    TimesConcat(At(path, dup), At(path, own), e);
    TimesConcat(At(path, dup) + At(path, own), below, e);
    TimesConcat(At(path, dup) + At(path, own) + below, rest, e);
    AtTimes(path, dup, e);
    AtTimes(path, own, e);
  }

  lemma StepSum(prefix: seq<nat>, imports: seq<ImportDef>, i: nat, seen: set<string>, e: DefError)
    requires i < |imports|
    ensures var def, path := imports[i], prefix + [i];
      var below := CheckFrom(path, def.conditional, 0, WithName(seen, def.name));
      Times(CheckFrom(prefix, imports, i, seen).errors, e) ==
        (if e.path ==
          path then Times(DuplicateComplaints(def.name, seen), e.complaint) + Once(Faulty(def, e.complaint)) else 0)
        + Times(below.errors, e) + Times(CheckFrom(prefix, imports, i + 1, below.names).errors, e)
  {
    var def, path := imports[i], prefix + [i];
    var below := CheckFrom(path, def.conditional, 0, WithName(seen, def.name));
    var rest := CheckFrom(prefix, imports, i + 1, below.names);
    FourTimes(path, DuplicateComplaints(def.name, seen), OwnComplaints(def), below.errors, rest.errors, e);
    OwnTimes(def, e.complaint);
  }

  /** What is due about a definition, what below it, and what behind it make up all that is due. */
  lemma StepDue(prefix: seq<nat>, imports: seq<ImportDef>, i: nat, seen: set<string>, names: set<string>, e: DefError)
    requires i < |imports|
    requires names == WithName(seen, imports[i].name) + Elements(NamesOf(Flatten(imports[i].conditional)))
    ensures var def, path := imports[i], prefix + [i];
      Once(DueUnder(prefix, imports, i, seen, e)) ==
        (if e.path ==
          path then Times(DuplicateComplaints(def.name, seen), e.complaint) + Once(Faulty(def, e.complaint)) else 0)
        + Once(DueUnder(path, def.conditional, 0, WithName(seen, def.name), e))
        + Once(DueUnder(prefix, imports, i + 1, names, e))
  {
    var path := prefix + [i];
    if e.path == path {
      DueHere(prefix, imports, i, seen, names, e);
    } else if Under(path, e.path) {
      DueBelow(prefix, imports, i, seen, names, e);
    } else {
      DueElsewhere(prefix, imports, i, seen, names, e);
    }
  }

  lemma {:induction false} CheckTimes(prefix: seq<nat>, imports: seq<ImportDef>, i: nat, seen: set<string>, e: DefError)
    requires i <= |imports|
    ensures Times(CheckFrom(prefix, imports, i, seen).errors, e) == Once(DueUnder(prefix, imports, i, seen, e))
    decreases imports, |imports| - i
  {
    if i < |imports| {
      var def, path := imports[i], prefix + [i];
      var own := WithName(seen, def.name);
      var below := CheckFrom(path, def.conditional, 0, own);
      CheckTimes(path, def.conditional, 0, own, e);
      CheckTimes(prefix, imports, i + 1, below.names, e);
      CheckNames(path, def.conditional, 0, own);
      assert def.conditional[0..] == def.conditional;
      StepSum(prefix, imports, i, seen, e);
      StepDue(prefix, imports, i, seen, below.names, e);
    }
  }

  /** Every complaint that is due about a definition of the tree is made once, at its position, and no other is made. */
  lemma ComplaintsExact(imports: seq<ImportDef>, e: DefError)
    ensures Times(CheckImports(imports).errors, e) == Once(Due(imports, 0, {}, e.path, e.complaint))
  {
    CheckTimes([], imports, 0, {}, e);
    assert e.path[..0] == [] && e.path[0..] == e.path;
  }

  // ---------- Export definitions ----------

  predicate FaultyExport(exports: seq<ExportDef>, i: nat, complaint: Complaint)
    requires i < |exports|
  {
    var def := exports[i];
    match complaint
    case NameMissing => def.name == ""
    case DuplicateName => def.name != "" && exists k :: 0 <= k < i && exports[k].name == def.name
    case TypeNotSupported => def.exportType != "" && def.exportType != "data" && def.exportType != "target"
    case NotExactlyOne(verdict) => def.exportType == "" && verdict == NoneSet
    case Config(ConfigMissing(field)) =>
      || (field == "Schema" && def.schema.None? && def.exportType == "data")
      || (field == "TargetType" && def.targetType == "" && def.exportType == "target")
    case Config(ConfigUnexpected(field)) =>
      || (field == "Schema" && def.schema.Some? && def.exportType == "target")
      || (field == "TargetType" && def.targetType != "" && def.exportType == "data")
    case _ => false
  }

  lemma ExportTable(t: string)
    ensures t in EXPORT_TYPES_WITH_EXPECTED_CONFIG <==> t == "data" || t == "target"
    ensures t in EXPORT_TYPES_WITH_EXPECTED_CONFIG ==>
      var expected := EXPORT_TYPES_WITH_EXPECTED_CONFIG[t];
      ("Schema" in expected <==> t == "data") && ("TargetType" in expected <==> t == "target")
  {
    TypesDiffer();
    if t in EXPORT_TYPES_WITH_EXPECTED_CONFIG {
      ExpectedExportConfig(t);
    }
  }

  lemma ExportConfigTimes(exports: seq<ExportDef>, i: nat, complaint: Complaint)
    requires i < |exports|
    ensures Times(ExportConfigComplaints(exports[i]), complaint) ==
      Once(complaint != NameMissing && complaint != DuplicateName && FaultyExport(exports, i, complaint))
  {
    var def := exports[i];
    TypesDiffer();
    ExportTable(def.exportType);
    if def.exportType == "" {
      UntypedExportRejected(def);
    } else if def.exportType in EXPORT_TYPES_WITH_EXPECTED_CONFIG {
      ConfigTimes(def.schema.Some?, def.targetType != "", EXPORT_TYPES_WITH_EXPECTED_CONFIG[def.exportType], complaint);
    }
  }

  lemma ExportTimes(exports: seq<ExportDef>, i: nat, complaint: Complaint)
    requires i < |exports|
    ensures Times(ExportComplaints(exports, i), complaint) == Once(FaultyExport(exports, i, complaint))
  {
    var name, dup := NameComplaints(exports[i].name), DuplicateComplaints(exports[i].name, ExportNames(exports, i));
    TimesConcat(name, dup, complaint);
    TimesConcat(name + dup, ExportConfigComplaints(exports[i]), complaint);
    ExportConfigTimes(exports, i, complaint);
    assert exports[i].name in ExportNames(exports, i) <==> exists k :: 0 <= k < i && exports[k].name == exports[i].name;
  }

  lemma OneExportTimes(exports: seq<ExportDef>, i: nat, e: DefError)
    requires i < |exports|
    ensures Times(ExportErrors(exports)[i], e) == Once(e.path == [i] && FaultyExport(exports, i, e.complaint))
  {
    AtTimes([i], ExportComplaints(exports, i), e);
    if e.path == [i] {
      ExportTimes(exports, i, e.complaint);
    }
  }

  /** A complaint is due about one of the first `n` exports. */
  predicate ExportDue(exports: seq<ExportDef>, n: nat, e: DefError)
    requires n <= |exports|
  {
    |e.path| == 1 && e.path[0] < n && FaultyExport(exports, e.path[0], e.complaint)
  }

  lemma ExportsStep(exports: seq<ExportDef>, i: nat, e: DefError)
    requires i < |exports| && Times(ConcatAll(ExportErrors(exports)[..i]), e) == Once(ExportDue(exports, i, e))
    ensures Times(ConcatAll(ExportErrors(exports)[..i + 1]), e) == Once(ExportDue(exports, i + 1, e))
  {
    var parts := ExportErrors(exports);
    ConcatAllStep(parts, i);
    TimesConcat(ConcatAll(parts[..i]), parts[i], e);
    OneExportTimes(exports, i, e);
    assert |e.path| == 1 && e.path[0] == i <==> e.path == [i];
  }

  lemma {:induction false} ExportsTimes(exports: seq<ExportDef>, n: nat, e: DefError)
    requires n <= |exports|
    ensures Times(ConcatAll(ExportErrors(exports)[..n]), e) == Once(ExportDue(exports, n, e))
  {
    if n > 0 {
      var i: nat := n - 1;
      ExportsTimes(exports, i, e);
      ExportsStep(exports, i, e);
    }
  }

  /** The same for exports. */
  lemma ExportComplaintsExact(exports: seq<ExportDef>, e: DefError)
    ensures Times(ConcatAll(ExportErrors(exports)), e) ==
      Once(ExportDue(exports, |exports|, e))
  {
    ExportsTimes(exports, |exports|, e);
    assert ExportErrors(exports)[..|exports|] == ExportErrors(exports);
  }
}
