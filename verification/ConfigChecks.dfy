/**
 Checks on which of several fields of a definition are set, with the tables that say which ones belong to which
 type.
 */
module ConfigChecks {
  import opened Basics

  // ---------- Exactly one of several fields ----------

  /** A top-level field of a struct; `isSet` says that its value is neither nil nor zero. */
  datatype Field = Field(name: string, isSet: bool)

  datatype OneOf = ExactlyOne | SeveralSet | NoneSet

  /** The names of the fields that are set and among `configs`. */
  function SetFields(fields: seq<Field>, configs: seq<string>): seq<string> {
    if fields == [] then []
    else
      var last := fields[|fields| - 1];
      SetFields(fields[..|fields| - 1], configs) + (if last.name in configs && last.isSet then [last.name] else [])
  }

  function OneOfVerdict(fields: seq<Field>, configs: seq<string>): OneOf {
    var n := |SetFields(fields, configs)|;
    if n > 1 then SeveralSet else if n == 0 then NoneSet else ExactlyOne
  }

  method StringContains(data: seq<string>, value: string) returns (found: bool)
    ensures found <==> value in data
  {
    for i := 0 to |data|
      invariant value !in data[..i]
    {
      if data[i] == value {
        return true;
      }
    }
    return false;
  }

  method ValidateExactlyOneOf(fields: seq<Field>, configs: seq<string>) returns (r: OneOf)
    ensures r == OneOfVerdict(fields, configs)
  {
    var setFields: seq<string> := [];
    for i := 0 to |fields|
      invariant setFields == SetFields(fields[..i], configs)
    {
      assert fields[..i + 1][..i] == fields[..i];
      var relevant := StringContains(configs, fields[i].name);
      if !relevant {
        continue;
      }
      if fields[i].isSet {
        setFields := setFields + [fields[i].name];
      }
    }
    assert fields[..|fields|] == fields;
    if |setFields| > 1 {
      return SeveralSet;
    } else if |setFields| == 0 {
      return NoneSet;
    }
    return ExactlyOne;
  }

  ghost predicate Counts(fields: seq<Field>, configs: seq<string>, i: int) {
    0 <= i < |fields| && fields[i].name in configs && fields[i].isSet
  }

  lemma {:induction false} SetFieldsSize(fields: seq<Field>, configs: seq<string>)
    ensures |SetFields(fields, configs)| == |set i | 0 <= i < |fields| && Counts(fields, configs, i)|
  {
    var all := set i | 0 <= i < |fields| && Counts(fields, configs, i);
    if fields == [] {
      assert all == {};
    } else {
      var n := |fields| - 1;
      var front := fields[..n];
      SetFieldsSize(front, configs);
      var before := set i | 0 <= i < |front| && Counts(front, configs, i);
      assert forall i :: i in before <==> i in all && i < n;
      assert all == if Counts(fields, configs, n) then before + {n} else before;
    }
  }

  ghost predicate OnlyOne(fields: seq<Field>, configs: seq<string>, i: int) {
    Counts(fields, configs, i) && forall j :: Counts(fields, configs, j) ==> j == i
  }

  lemma Single<T>(s: set<T>) returns (x: T)
    requires |s| == 1
    ensures s == {x}
  {
    x :| x in s;
    assert |s - {x}| == 0;
    assert s == {x} + (s - {x});
  }

  /** The check passes exactly when one of the named fields, and no other of them, is set. */
  lemma ExactlyOneIff(fields: seq<Field>, configs: seq<string>)
    ensures OneOfVerdict(fields, configs) == ExactlyOne <==> exists i :: OnlyOne(fields, configs, i)
  {
    var all := set i | 0 <= i < |fields| && Counts(fields, configs, i);
    SetFieldsSize(fields, configs);
    if |all| == 1 {
      var i := Single(all);
      assert forall j :: Counts(fields, configs, j) ==> j in all;
      assert OnlyOne(fields, configs, i);
    }
    forall i | OnlyOne(fields, configs, i) ensures |all| == 1 {
      assert all == {i};
    }
  }

  // ---------- Which fields belong to which type ----------

  const DATA := "data"
  const TARGET := "target"
  const TARGET_LIST := "targetList"
  const COMPONENT_DESCRIPTOR := "componentDescriptor"
  const COMPONENT_DESCRIPTOR_LIST := "componentDescriptorList"

  const SCHEMA := "Schema"
  const TARGET_TYPE := "TargetType"

  const IMPORT_TYPES_WITH_EXPECTED_CONFIG: map<string, seq<string>> := map[
    DATA := [SCHEMA],
    TARGET := [TARGET_TYPE],
    TARGET_LIST := [TARGET_TYPE],
    COMPONENT_DESCRIPTOR := [],
    COMPONENT_DESCRIPTOR_LIST := []
  ]

  const EXPORT_TYPES_WITH_EXPECTED_CONFIG: map<string, seq<string>> := map[
    DATA := [SCHEMA],
    TARGET := [TARGET_TYPE]
  ]

  ghost predicate Mentioned(table: map<string, seq<string>>, types: set<string>, field: string) {
    exists t :: t in types && t in table && field in table[t]
  }

  /** Enters every field that the table mentions. */
  method AddConfigFields(table: map<string, seq<string>>, res: map<string, bool>) returns (r: map<string, bool>)
    ensures forall f :: f in r <==> f in res || Mentioned(table, table.Keys, f)
    ensures forall f :: f in r ==> r[f] == if Mentioned(table, table.Keys, f) then true else res[f]
  {
    r := res;
    var rest := table.Keys;
    while rest != {}
      invariant rest <= table.Keys
      invariant forall f :: f in r <==> f in res || Mentioned(table, table.Keys - rest, f)
      invariant forall f :: f in r ==> r[f] == if Mentioned(table, table.Keys - rest, f) then true else res[f]
      decreases rest
    {
      var t :| t in rest;
      var fields := table[t];
      for i := 0 to |fields|
        invariant forall f :: f in r <==> f in res || Mentioned(table, table.Keys - rest, f) || f in fields[..i]
        invariant forall f :: f in r ==>
          r[f] == if Mentioned(table, table.Keys - rest, f) || f in fields[..i] then true else res[f]
      {
        r := r[fields[i] := true];
      }
      assert fields[..|fields|] == fields;
      rest := rest - {t};
    }
  }

  lemma ImportTableMentions(f: string)
    ensures Mentioned(IMPORT_TYPES_WITH_EXPECTED_CONFIG, IMPORT_TYPES_WITH_EXPECTED_CONFIG.Keys, f) <==>
      f == SCHEMA || f == TARGET_TYPE
  {
    assert SCHEMA in IMPORT_TYPES_WITH_EXPECTED_CONFIG[DATA];
    assert TARGET_TYPE in IMPORT_TYPES_WITH_EXPECTED_CONFIG[TARGET];
  }

  lemma ExportTableMentions(f: string)
    ensures Mentioned(EXPORT_TYPES_WITH_EXPECTED_CONFIG, EXPORT_TYPES_WITH_EXPECTED_CONFIG.Keys, f) <==>
      f == SCHEMA || f == TARGET_TYPE
  {
    assert SCHEMA in EXPORT_TYPES_WITH_EXPECTED_CONFIG[DATA];
    assert TARGET_TYPE in EXPORT_TYPES_WITH_EXPECTED_CONFIG[TARGET];
  }

  method ComputeRelevantConfigFields() returns (res: map<string, bool>)
    ensures res == map[SCHEMA := true, TARGET_TYPE := true]
  {
    res := AddConfigFields(IMPORT_TYPES_WITH_EXPECTED_CONFIG, map[]);
    res := AddConfigFields(EXPORT_TYPES_WITH_EXPECTED_CONFIG, res);
    forall f ensures f in res <==> f == SCHEMA || f == TARGET_TYPE {
      ImportTableMentions(f);
      ExportTableMentions(f);
    }
  }

  datatype ConfigError = ConfigMissing(field: string) | ConfigUnexpected(field: string)

  /** What is wrong with one field of a definition, given which fields its type expects. */
  function FieldErrors(key: string, isSet: bool, expected: seq<string>): seq<ConfigError> {
    if key in expected then (if isSet then [] else [ConfigMissing(key)])
    else if isSet then [ConfigUnexpected(key)]
    else []
  }

  function ConfigErrors(schemaSet: bool, targetTypeSet: bool, expected: seq<string>): seq<ConfigError> {
    FieldErrors(SCHEMA, schemaSet, expected) + FieldErrors(TARGET_TYPE, targetTypeSet, expected)
  }

  method CheckField(key: string, isSet: bool, expected: seq<string>) returns (errs: seq<ConfigError>)
    ensures errs == FieldErrors(key, isSet, expected)
  {
    errs := [];
    var isExpected := StringContains(expected, key);
    if isExpected {
      if !isSet {
        errs := [ConfigMissing(key)];
      }
    } else {
      if isSet {
        errs := [ConfigUnexpected(key)];
      }
    }
  }

  /** What has been found when the fields in `rest` are still to be visited. */
  ghost function Visited<T>(rest: set<string>, schema: multiset<T>, targetType: multiset<T>): multiset<T> {
    (if SCHEMA in rest then multiset{} else schema) + (if TARGET_TYPE in rest then multiset{} else targetType)
  }

  lemma VisitedStep<T>(rest: set<string>, key: string, schema: multiset<T>, targetType: multiset<T>)
    requires key in rest && rest <= {SCHEMA, TARGET_TYPE}
    ensures Visited(rest - {key}, schema, targetType) ==
      Visited(rest, schema, targetType) + if key == SCHEMA then schema else targetType
  {
    assert SCHEMA != TARGET_TYPE;
  }

  /** The fields are visited in any order. */
  method ValidateMutuallyExclusiveConfig(schemaSet: bool, targetTypeSet: bool, expected: seq<string>)
    returns (errs: seq<ConfigError>)
    ensures multiset(errs) == multiset(ConfigErrors(schemaSet, targetTypeSet, expected))
  {
    var relevant := ComputeRelevantConfigFields();
    var rest := relevant.Keys;
    errs := [];
    ghost var schema := FieldErrors(SCHEMA, schemaSet, expected);
    ghost var targetType := FieldErrors(TARGET_TYPE, targetTypeSet, expected);
    while rest != {}
      invariant rest <= {SCHEMA, TARGET_TYPE}
      invariant multiset(errs) == Visited(rest, multiset(schema), multiset(targetType))
      decreases rest
    {
      var key :| key in rest;
      VisitedStep(rest, key, multiset(schema), multiset(targetType));
      var found := CheckField(key, if key == SCHEMA then schemaSet else targetTypeSet, expected);
      CountsOfConcat(errs, found);
      errs := errs + found;
      rest := rest - {key};
    }
    CountsOfConcat(schema, targetType);
  }
}
