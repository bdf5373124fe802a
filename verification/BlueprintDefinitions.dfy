/** Import and export definitions of a blueprint: what validation complains about, and what defaulting makes of them. */
module BlueprintDefinitions {
  import opened Basics
  import opened ConfigChecks

  datatype ImportDef = ImportDef(
    name: string,
    schema: Option<string>,
    targetType: string,
    importType: string,
    required: Option<bool>,
    conditional: seq<ImportDef>)

  datatype ExportDef = ExportDef(name: string, schema: Option<string>, targetType: string, exportType: string)

  datatype Complaint =
    | DuplicateName
    | NameMissing
    | Config(error: ConfigError)
    | TypeNotSupported
    | NeitherSchemaNorTargetType
    | BothSchemaAndTargetType
    | NotExactlyOne(verdict: OneOf)
    | ConditionalOnRequired

  /** A complaint about the definition at a position; positions of conditional imports continue those of their owner. */
  datatype DefError = DefError(path: seq<nat>, complaint: Complaint)

  function At(path: seq<nat>, complaints: seq<Complaint>): seq<DefError> {
    if complaints == [] then [] else [DefError(path, complaints[0])] + At(path, complaints[1..])
  }

  function AsComplaints(errs: seq<ConfigError>): seq<Complaint> {
    if errs == [] then [] else [Config(errs[0])] + AsComplaints(errs[1..])
  }

  // ---------- Imports ----------

  /** Whether the configured fields fit the type, or, without a type, whether one of them can stand for it. */
  function ImportConfigComplaints(def: ImportDef): seq<Complaint> {
    var schemaSet, targetTypeSet := def.schema.Some?, def.targetType != "";
    if def.importType != "" then
      if def.importType in IMPORT_TYPES_WITH_EXPECTED_CONFIG
      then AsComplaints(ConfigErrors(schemaSet, targetTypeSet, IMPORT_TYPES_WITH_EXPECTED_CONFIG[def.importType]))
      else [TypeNotSupported]
    else if !schemaSet && !targetTypeSet then [NeitherSchemaNorTargetType]
    else if schemaSet && targetTypeSet then [BothSchemaAndTargetType]
    else []
  }

  function IsRequired(def: ImportDef): bool {
    if def.required.Some? then def.required.value else true
  }

  function ConditionalComplaints(def: ImportDef): seq<Complaint> {
    if |def.conditional| > 0 && IsRequired(def) then [ConditionalOnRequired] else []
  }

  function NameComplaints(name: string): seq<Complaint> {
    if name == "" then [NameMissing] else []
  }

  /** What is wrong with one definition, whatever the others are. */
  function OwnComplaints(def: ImportDef): seq<Complaint> {
    ImportConfigComplaints(def) + ConditionalComplaints(def) + NameComplaints(def.name)
  }

  function DuplicateComplaints(name: string, seen: set<string>): seq<Complaint> {
    if name != "" && name in seen then [DuplicateName] else []
  }

  function WithName(seen: set<string>, name: string): set<string> {
    if name == "" then seen else seen + {name}
  }

  datatype ImportCheck = ImportCheck(names: set<string>, errors: seq<DefError>)

  /**
   The check of the definitions from position `i` on, with the names seen so far; the names are threaded
   through the whole tree.
   */
  function CheckFrom(path: seq<nat>, imports: seq<ImportDef>, i: nat, seen: set<string>): ImportCheck
    requires i <= |imports|
    decreases imports, |imports| - i
  {
    if i == |imports| then ImportCheck(seen, [])
    else
      var def := imports[i];
      var below := CheckFrom(path + [i], def.conditional, 0, WithName(seen, def.name));
      var rest := CheckFrom(path, imports, i + 1, below.names);
      ImportCheck(rest.names,
        At(path + [i], DuplicateComplaints(def.name, seen)) + At(path + [i], OwnComplaints(def))
        + below.errors + rest.errors)
  }

  function CheckImports(imports: seq<ImportDef>): ImportCheck {
    CheckFrom([], imports, 0, {})
  }

  // ---------- Exports ----------

  /**
   Without a type, the check looks at the top-level fields of the definition only, and schema and target type
   are not among them.
   */
  function ExportFields(def: ExportDef): seq<Field> {
    [Field("FieldValueDefinition", def.name != "" || def.schema.Some? || def.targetType != ""),
     Field("Type", def.exportType != "")]
  }

  function ExportConfigComplaints(def: ExportDef): seq<Complaint> {
    if def.exportType != "" then
      if def.exportType in EXPORT_TYPES_WITH_EXPECTED_CONFIG
      then AsComplaints(ConfigErrors(def.schema.Some?, def.targetType != "",
                                     EXPORT_TYPES_WITH_EXPECTED_CONFIG[def.exportType]))
      else [TypeNotSupported]
    else
      var verdict := OneOfVerdict(ExportFields(def), [SCHEMA, TARGET_TYPE]);
      if verdict == ExactlyOne then [] else [NotExactlyOne(verdict)]
  }

  /** The names of the exports before position `n`. */
  function ExportNames(exports: seq<ExportDef>, n: nat): set<string>
    requires n <= |exports|
  {
    set i | 0 <= i < n :: exports[i].name
  }

  function ExportComplaints(exports: seq<ExportDef>, i: nat): seq<Complaint>
    requires i < |exports|
  {
    NameComplaints(exports[i].name) + DuplicateComplaints(exports[i].name, ExportNames(exports, i))
      + ExportConfigComplaints(exports[i])
  }

  /** The errors, export by export. */
  function ExportErrors(exports: seq<ExportDef>): seq<seq<DefError>> {
    seq(|exports|, i requires 0 <= i < |exports| => At([i], ExportComplaints(exports, i)))
  }

  // ---------- Defaulting ----------

  const LANDSCAPER_DOMAIN := "landscaper.gardener.cloud"

  function QualifiedTargetType(t: string): string {
    if t != "" && '/' !in t then LANDSCAPER_DOMAIN + "/" + t else t
  }

  function DefaultType(schema: Option<string>, targetType: string, typ: string): string {
    if typ != "" then typ
    else if schema.Some? then DATA
    else if targetType != "" then TARGET
    else ""
  }

  /** A definition after defaulting, its conditional imports included. */
  function DefaultImport(def: ImportDef): ImportDef
    decreases def
  {
    var d := def.(required := Some(IsRequired(def)), conditional := DefaultImports(def.conditional));
    if d.schema.Some? && d.targetType != "" then d
    else
      var t := DefaultType(d.schema, d.targetType, d.importType);
      var isTarget := t == TARGET || t == TARGET_LIST;
      d.(importType := t, targetType := if isTarget then QualifiedTargetType(d.targetType) else d.targetType)
  }

  function DefaultImports(imports: seq<ImportDef>): (r: seq<ImportDef>)
    ensures |r| == |imports| && forall i :: 0 <= i < |r| ==> r[i] == DefaultImport(imports[i])
    decreases imports
  {
    if imports == [] then []
    else
      [DefaultImport(imports[0])] + DefaultImports(imports[1..])
  }

  function DefaultExport(def: ExportDef): ExportDef {
    if def.schema.Some? && def.targetType != "" then def
    else
      var t := DefaultType(def.schema, def.targetType, def.exportType);
      def.(exportType := t, targetType := if t == TARGET then QualifiedTargetType(def.targetType) else def.targetType)
  }
}
