/**
 Defaulting of definitions in place.  Import definitions are elements of arrays that lists of conditional
 imports refer to, and several lists may refer to one array; export definitions are elements of an array.
 */
module DefinitionDefaults {
  import opened Basics
  import opened ConfigChecks
  import opened BlueprintDefinitions
  import BlueprintDefinitionLaws

  class ImportNode {
    var name: string
    var schema: Option<string>
    var targetType: string
    var importType: string
    var required: Option<bool>
    const conditional: seq<ImportNode>
    /** The definition itself and all definitions below it. */
    ghost const repr: set<ImportNode>

    constructor (name: string, schema: Option<string>, targetType: string, importType: string, required: Option<bool>,
                 conditional: seq<ImportNode>)
      requires ValidList(conditional)
      ensures Valid()
      ensures this.conditional == conditional && repr == {this} + Footprint(conditional)
      ensures Own() == ImportDef(name, schema, targetType, importType, required, [])
    {
      this.name, this.schema, this.targetType := name, schema, targetType;
      this.importType, this.required := importType, required;
      this.conditional := conditional;
      this.repr := {this} + Footprint(conditional);
    }

    /** No definition is below itself.  Definitions may well be shared. */
    ghost predicate Valid()
      decreases repr
    {
      && repr == {this} + Footprint(conditional)
      && this !in Footprint(conditional)
      && forall i :: 0 <= i < |conditional| ==> conditional[i].repr < repr && conditional[i].Valid()
    }

    /** The definition without its conditional imports. */
    function Own(): ImportDef
      reads this
    {
      ImportDef(name, schema, targetType, importType, required, [])
    }
  }

  ghost function Footprint(nodes: seq<ImportNode>): set<ImportNode> {
    set n, m | n in nodes && m in n.repr :: m
  }

  ghost predicate ValidList(nodes: seq<ImportNode>) {
    forall i :: 0 <= i < |nodes| ==> nodes[i].Valid()
  }

  // ---------- As values ----------

  /** What is written in the definitions at one moment. */
  type Contents = map<ImportNode, ImportDef>

  ghost function ContentsOf(nodes: set<ImportNode>): Contents
    reads nodes
  {
    map n | n in nodes :: n.Own()
  }

  ghost function ValueIn(n: ImportNode, own: Contents): ImportDef
    requires n.Valid() && n.repr <= own.Keys
    decreases n.repr
  {
    own[n].(conditional := seq(|n.conditional|, i requires 0 <= i < |n.conditional| => ValueIn(n.conditional[i], own)))
  }

  ghost function ValuesIn(nodes: seq<ImportNode>, own: Contents): seq<ImportDef>
    requires ValidList(nodes) && Footprint(nodes) <= own.Keys
  {
    seq(|nodes|, i requires 0 <= i < |nodes| => ValueIn(nodes[i], own))
  }

  ghost function Values(nodes: seq<ImportNode>): seq<ImportDef>
    requires ValidList(nodes)
    reads Footprint(nodes)
  {
    ValuesIn(nodes, ContentsOf(Footprint(nodes)))
  }

  // ---------- What defaulting does to the definitions one by one ----------

  /** From one moment to another, the given definitions are defaulted, and the others are as they were. */
  ghost predicate Handled(before: Contents, after: Contents, nodes: set<ImportNode>) {
    && after.Keys == before.Keys
    && forall n :: n in before ==> after[n] == if n in nodes then DefaultImport(before[n]) else before[n]
  }

  /** Handling a shared definition again does not matter. */
  lemma HandledThen(before: Contents, now: Contents, after: Contents, nodes: set<ImportNode>, nodes': set<ImportNode>)
    requires Handled(before, now, nodes) && Handled(now, after, nodes')
    ensures Handled(before, after, nodes + nodes')
  {
    forall n | n in before ensures DefaultImport(DefaultImport(before[n])) == DefaultImport(before[n]) {
      BlueprintDefinitionLaws.DefaultImportTwice(before[n]);
    }
  }

  lemma OwnAndBelow(own: ImportDef, below: seq<ImportDef>)
    ensures DefaultImport(own.(conditional := below)) == DefaultImport(own).(conditional := DefaultImports(below))
  {
  }

  /** A definition whose every part is defaulted is defaulted as a whole, however the parts are shared. */
  lemma {:induction false} ValueDefaulted(n: ImportNode, before: Contents, after: Contents)
    requires n.Valid() && n.repr <= before.Keys && Handled(before, after, before.Keys)
    requires forall m :: m in before ==> before[m].conditional == []
    ensures ValueIn(n, after) == DefaultImport(ValueIn(n, before))
    decreases n.repr
  {
    var below, below' := ValueIn(n, before).conditional, ValueIn(n, after).conditional;
    forall i | 0 <= i < |n.conditional| ensures below'[i] == DefaultImport(below[i]) {
      ValueDefaulted(n.conditional[i], before, after);
    }
    assert below' == DefaultImports(below);
    OwnAndBelow(before[n], below);
  }

  lemma ValuesDefaulted(nodes: seq<ImportNode>, before: Contents, after: Contents)
    requires ValidList(nodes) && Footprint(nodes) == before.Keys && Handled(before, after, before.Keys)
    requires forall m :: m in before ==> before[m].conditional == []
    ensures ValuesIn(nodes, after) == DefaultImports(ValuesIn(nodes, before))
  {
    forall i | 0 <= i < |nodes| ensures ValueIn(nodes[i], after) == DefaultImport(ValueIn(nodes[i], before)) {
      ValueDefaulted(nodes[i], before, after);
    }
    assert ValuesIn(nodes, after) == DefaultImports(ValuesIn(nodes, before));
  }

  // ---------- In place ----------

  twostate predicate Defaulted(nodes: set<ImportNode>)
    reads nodes
  {
    forall n :: n in nodes ==> n.Own() == DefaultImport(old(n.Own()))
  }

  lemma RequiredFirst(own: ImportDef)
    ensures DefaultImport(own.(required := Some(IsRequired(own)))) == DefaultImport(own)
  {
  }

  /** The first part of a round. */
  method SetDefaultsRequired(imp: ImportNode)
    modifies imp`required
    ensures imp.required.Some? && DefaultImport(imp.Own()) == DefaultImport(old(imp.Own()))
  {
    RequiredFirst(imp.Own());
    if imp.required.None? {
      imp.required := Some(true);
    }
  }

  /** The last part of a round: type and target type. */
  method SetDefaultsType(imp: ImportNode)
    requires imp.required.Some?
    modifies imp`importType, imp`targetType
    ensures imp.Own() == DefaultImport(old(imp.Own()))
  {
    if imp.schema.Some? && |imp.targetType| != 0 {
      return;
    }
    if |imp.importType| == 0 {
      if imp.schema.Some? {
        imp.importType := DATA;
      } else if |imp.targetType| != 0 {
        imp.importType := TARGET;
      }
    }
    if imp.importType == TARGET || imp.importType == TARGET_LIST {
      if |imp.targetType| != 0 && '/' !in imp.targetType {
        imp.targetType := LANDSCAPER_DOMAIN + "/" + imp.targetType;
      }
    }
  }

  lemma FootprintStep(nodes: seq<ImportNode>, i: nat)
    requires i < |nodes|
    ensures Footprint(nodes[..i + 1]) == Footprint(nodes[..i]) + nodes[i].repr
    ensures nodes[i].repr <= Footprint(nodes)
  {
    assert nodes[..i + 1] == nodes[..i] + [nodes[i]];
  }

  method SetDefaultsDefinitionImport(imports: seq<ImportNode>)
    requires ValidList(imports)
    modifies Footprint(imports)
    ensures Defaulted(Footprint(imports))
    ensures Values(imports) == DefaultImports(old(Values(imports)))
    decreases Footprint(imports), 1
  {
    ghost var all := Footprint(imports);
    ghost var before := ContentsOf(all);
    for i := 0 to |imports|
      invariant Handled(before, ContentsOf(all), Footprint(imports[..i]))
    {
      ghost var now := ContentsOf(all);
      FootprintStep(imports, i);
      SetDefaultsNode(imports[i]);
      HandledThen(before, now, ContentsOf(all), Footprint(imports[..i]), imports[i].repr);
    }
    assert imports[..|imports|] == imports;
    ValuesDefaulted(imports, before, ContentsOf(all));
  }

  /** One round of the loop above: first what is required, then the conditional imports, then type and target type. */
  method SetDefaultsNode(imp: ImportNode)
    requires imp.Valid()
    modifies imp.repr
    ensures Defaulted(imp.repr)
    decreases imp.repr, 0
  {
    SetDefaultsRequired(imp);
    SetDefaultsDefinitionImport(imp.conditional);
    SetDefaultsType(imp);
  }

  method SetDefaultsDefinitionExport(exports: array<ExportDef>)
    modifies exports
    ensures forall i :: 0 <= i < exports.Length ==> exports[i] == DefaultExport(old(exports[i]))
  {
    for i := 0 to exports.Length
      invariant forall k :: 0 <= k < i ==> exports[k] == DefaultExport(old(exports[k]))
      invariant forall k :: i <= k < exports.Length ==> exports[k] == old(exports[k])
    {
      if exports[i].schema.Some? && |exports[i].targetType| != 0 {
        continue;
      }
      if |exports[i].exportType| == 0 {
        if exports[i].schema.Some? {
          exports[i] := exports[i].(exportType := DATA);
        } else if |exports[i].targetType| != 0 {
          exports[i] := exports[i].(exportType := TARGET);
        }
      }
      if exports[i].exportType == TARGET {
        if |exports[i].targetType| != 0 && '/' !in exports[i].targetType {
          exports[i] := exports[i].(targetType := LANDSCAPER_DOMAIN + "/" + exports[i].targetType);
        }
      }
    }
  }
}
