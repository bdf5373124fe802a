/** Who provides the references that sub-installations import, once their wiring is accepted. */
module WiringProviders {
  import opened Basics
  import opened ConfigChecks
  import opened BlueprintDefinitions
  import opened InstallationImports
  import opened InstallationImportLaws
  import opened Wiring
  import opened WiringLaws
  import BlueprintDefinitionLaws

  // ---------- What is written is collected ----------

  lemma {:induction false} InConcatAll<T>(parts: seq<seq<T>>, i: nat, x: T)
    requires i < |parts| && x in parts[i]
    ensures x in ConcatAll(parts)
  {
    if i < |parts| - 1 {
      InConcatAll(parts[..|parts| - 1], i, x);
    }
  }

  /** When exactly one source is set, looking at the first source only misses nothing. */
  lemma CollectsAllTargets(imp: TargetImport)
    requires TargetOk(imp)
    ensures CollectedTargets(imp) == WrittenTargets(imp)
  {
    var choices := [imp.target != "", imp.targets.Some?, imp.targetListReference != ""];
    var i :| 0 <= i < |choices| && choices[i] && forall j :: 0 <= j < |choices| && choices[j] ==> j == i;
    assert choices[0] ==> i == 0;
    assert choices[1] ==> i == 1;
    assert choices[2] ==> i == 2;
  }

  lemma CollectsAllDescriptors(imp: DescriptorImport)
    requires TemplateDescriptorOk(imp)
    ensures CollectedDescriptors(imp) == WrittenDescriptors(imp)
  {
    var choices := [imp.list.Some?, imp.dataRef != ""];
    var i :| 0 <= i < |choices| && choices[i] && forall j :: 0 <= j < |choices| && choices[j] ==> j == i;
    assert choices[0] ==> i == 0;
    assert choices[1] ==> i == 1;
  }

  /** Everything written in the imports of a template is in its profile, if the imports name one source each. */
  lemma ProfileHasAllWritten(t: Template)
    requires forall k :: 0 <= k < |t.imports.targets| ==> TargetOk(t.imports.targets[k])
    requires forall k ::
      0 <= k < |t.imports.componentDescriptors| ==> TemplateDescriptorOk(t.imports.componentDescriptors[k])
    ensures forall k :: 0 <= k < |t.imports.data| ==> t.imports.data[k].dataRef in ProfileOf(t).dataImports
    ensures forall k, ref :: 0 <= k < |t.imports.targets| && ref in WrittenTargets(t.imports.targets[k]) ==>
      ref in ProfileOf(t).targetImports
    ensures forall k, ref ::
      0 <= k < |t.imports.componentDescriptors| && ref in WrittenDescriptors(t.imports.componentDescriptors[k]) ==>
      ref in ProfileOf(t).descriptorImports
  {
    forall k | 0 <= k < |t.imports.data| ensures t.imports.data[k].dataRef in ProfileOf(t).dataImports {
      assert DataImportRefs(t)[k] == t.imports.data[k].dataRef;
    }
    forall k, ref | 0 <= k < |t.imports.targets| && ref in WrittenTargets(t.imports.targets[k])
      ensures ref in ProfileOf(t).targetImports
    {
      CollectsAllTargets(t.imports.targets[k]);
      InConcatAll(TargetImportRefs(t.imports.targets), k, ref);
    }
    forall k, ref | 0 <= k < |t.imports.componentDescriptors|
      && ref in WrittenDescriptors(t.imports.componentDescriptors[k])
      ensures ref in ProfileOf(t).descriptorImports
    {
      CollectsAllDescriptors(t.imports.componentDescriptors[k]);
      InConcatAll(DescriptorImportRefs(t.imports.componentDescriptors), k, ref);
    }
  }

  /** A reference of the given kind is written in the imports of a template. */
  predicate Written(t: Template, kind: Kind, ref: string) {
    match kind
    case DataKind => exists k :: 0 <= k < |t.imports.data| && ref == t.imports.data[k].dataRef
    case TargetKind => exists k :: 0 <= k < |t.imports.targets| && ref in WrittenTargets(t.imports.targets[k])
    case DescriptorKind =>
      exists k ::
        0 <= k < |t.imports.componentDescriptors| && ref in WrittenDescriptors(t.imports.componentDescriptors[k])
  }

  lemma WrittenIsImported(ts: seq<Template>, ps: seq<Profile>, i: nat, kind: Kind, ref: string)
    requires Fits(ts, ps) && i < |ts|
    ensures TemplateOk(ts[i]) && Written(ts[i], kind, ref) ==> ref in ps[i].Imports(kind)
  {
    if TemplateOk(ts[i]) && Written(ts[i], kind, ref) {
      assert ps[i] == ProfileOf(ts[i]);
      TemplateImportsAcceptedIff(ts[i].imports);
      ProfileHasAllWritten(ts[i]);
    }
  }

  /**
   Which references are written in a target import: all its targets, and the two single references unless they
   are empty.
   */
  lemma WrittenTargetsIff(imp: TargetImport, ref: string)
    ensures ref in WrittenTargets(imp) <==>
      || (ref != "" && (ref == imp.target || ref == imp.targetListReference))
      || (imp.targets.Some? && ref in imp.targets.value)
  {
  }

  lemma {:induction false} ListRefsIff(list: seq<DescriptorData>, n: nat, ref: string)
    requires n <= |list|
    ensures ref in ListRefs(list, n) <==> ref != "" && exists k :: 0 <= k < n && list[k].dataRef == ref
  {
    if n > 0 {
      var i: nat := n - 1;
      ListRefsIff(list, i, ref);
    }
  }

  /** Which references are written in a descriptor import: those of itself and of its list that are not empty. */
  lemma WrittenDescriptorsIff(imp: DescriptorImport, ref: string)
    ensures ref in WrittenDescriptors(imp) <==>
      && ref != ""
      && (ref == imp.dataRef
          || (imp.list.Some? && exists k :: 0 <= k < |imp.list.value| && imp.list.value[k].dataRef == ref))
  {
    if imp.list.Some? {
      ListRefsIff(imp.list.value, |imp.list.value|, ref);
    }
  }

  /** Of several sources the first alone is collected: a target before targets, and these before a list reference. */
  lemma FirstSourceCollected(imp: TargetImport)
    ensures CollectedTargets(imp) == WrittenTargets(
      if imp.target != "" then imp.(targets := None, targetListReference := "")
      else if imp.targets.Some? then imp.(targetListReference := "")
      else imp)
  {
  }

  // ---------- What the parent provides ----------

  /** What a definition provides, by its type, or without one by its fields. */
  lemma KindsByType(def: ImportDef)
    ensures var kinds := set kind: Kind | Provides(def, kind);
      kinds ==
        if def.importType == "data" then {DataKind}
        else if def.importType == "target" || def.importType == "targetList" then {TargetKind}
        else if def.importType ==
          "componentDescriptor" || def.importType == "componentDescriptorList" then {DescriptorKind}
        else if def.importType == "" && def.schema.Some? then {DataKind}
        else if def.importType == "" && def.targetType != "" then {TargetKind}
        else {}
  {
    BlueprintDefinitionLaws.TypesDiffer();
  }

  /** The fields of a definition give one of the three kinds away. */
  predicate FieldsGive(def: ImportDef, kind: Kind) {
    match kind
    case DataKind => def.schema.Some?
    case TargetKind => def.targetType != ""
    case DescriptorKind => def.schema.None? && def.targetType == ""
  }

  /** A definition whose configuration fits provides the one kind that its fields give away. */
  lemma FittingProvides(def: ImportDef, kind: Kind)
    requires BlueprintDefinitionLaws.ConfigOk(def)
    ensures Provides(def, kind) <==> FieldsGive(def, kind)
    ensures FieldsGive(def, kind) ==> forall other :: FieldsGive(def, other) ==> other == kind
  {
    BlueprintDefinitionLaws.TypesDiffer();
  }

  lemma {:induction false} TopLevelFlattened(defs: seq<ImportDef>, d: nat)
    requires d < |defs|
    ensures defs[d] in BlueprintDefinitionLaws.Flatten(defs)
  {
    if d > 0 {
      TopLevelFlattened(defs[1..], d - 1);
    }
  }

  /**
   An accepted blueprint provides to its sub-installations exactly its top-level imports, each as the kind its
   fields give away.
   */
  lemma AcceptedParent(defs: seq<ImportDef>, kind: Kind, ref: string)
    requires CheckImports(defs).errors == []
    ensures ref in Parent(defs, kind) <==>
      exists d :: 0 <= d < |defs| && defs[d].name == ref && FieldsGive(defs[d], kind)
  {
    BlueprintDefinitionLaws.ImportsAcceptedIff(defs);
    forall d | 0 <= d < |defs| ensures Provides(defs[d], kind) <==> FieldsGive(defs[d], kind) {
      TopLevelFlattened(defs, d);
      FittingProvides(defs[d], kind);
    }
  }

  // ---------- One provider ----------

  /** How many providers a reference has: the parent counts once, every export entry counts. */
  function Providers(parent: set<string>, ps: seq<Profile>, kind: Kind, ref: string): nat {
    (if ref in parent then 1 else 0) + multiset(AllExports(ps, kind))[ref]
  }

  lemma OneProvider(parent: set<string>, ps: seq<Profile>, kind: Kind, i: nat, ref: string)
    requires WiredUp(parent, ps, kind)
    requires i < |ps| && ref in ps[i].Imports(kind)
    ensures Providers(parent, ps, kind, ref) == 1
  {
    InConcatAll(ImportsByTemplate(ps, kind), i, ref);
    assert ref in Elements(AllImports(ps, kind));
    CountDistinct(AllExports(ps, kind), ref);
    assert ref in Elements(AllExports(ps, kind)) <==> ref in AllExports(ps, kind);
  }

  lemma UniqueProviderFor(parent: set<string>, ts: seq<Template>, ps: seq<Profile>, i: nat, kind: Kind, ref: string)
    requires Fits(ts, ps) && AllTemplatesOk(ts) && WiredUp(parent, ps, kind)
    requires i < |ts| && Written(ts[i], kind, ref)
    ensures Providers(parent, ps, kind, ref) == 1
    ensures kind == DescriptorKind ==> ref in parent
  {
    assert TemplateOk(ts[i]);
    WrittenIsImported(ts, ps, i, kind, ref);
    OneProvider(parent, ps, kind, i, ref);
    NoDescriptorExports(ps);
  }

  /**
   If the templates are accepted, every reference written in any of their imports has exactly one provider: an
   import of the parent, or one export entry of one template.
   */
  lemma UniqueProvider(defs: seq<ImportDef>, ts: seq<Template>, ps: seq<Profile>, i: nat, kind: Kind, ref: string)
    requires ps == Profiles(ts) && i < |ts|
    ensures WiringIssues(defs, ts) == [] && Written(ts[i], kind, ref) ==>
      && Providers(Parent(defs, kind), ps, kind, ref) == 1
      && (kind == DescriptorKind ==> ref in Parent(defs, kind))
  {
    if WiringIssues(defs, ts) == [] && Written(ts[i], kind, ref) {
      WiringAcceptedIff(defs, ts, ps);
      ProfilesFit(ts);
      UniqueProviderFor(Parent(defs, kind), ts, ps, i, kind, ref);
    }
  }

  /** The top-level imports of the parent that provide the reference, by position. */
  function ProvidingDefs(defs: seq<ImportDef>, kind: Kind, ref: string): set<nat> {
    set d: nat | 0 <= d < |defs| && Provides(defs[d], kind) && defs[d].name == ref
  }

  predicate DistinctDefs(defs: seq<ImportDef>) {
    forall d, d' :: 0 <= d < d' < |defs| ==> defs[d].name != defs[d'].name
  }

  lemma {:induction false} TopLevelListed(defs: seq<ImportDef>, d: nat)
    requires d < |defs| && defs[d].name != ""
    ensures defs[d].name in BlueprintDefinitionLaws.NamesOf(BlueprintDefinitionLaws.Flatten(defs))
  {
    BlueprintDefinitionLaws.NamesStep(defs, 0);
    assert defs[0..] == defs;
    if d > 0 {
      TopLevelListed(defs[1..], d - 1);
    }
  }

  /** Names that differ across the whole tree differ at the top. */
  lemma {:induction false} TopLevelDistinct(defs: seq<ImportDef>)
    requires Distinct(BlueprintDefinitionLaws.NamesOf(BlueprintDefinitionLaws.Flatten(defs)))
    requires forall d :: 0 <= d < |defs| ==> defs[d].name != ""
    ensures DistinctDefs(defs)
  {
    if defs != [] {
      var rest := BlueprintDefinitionLaws.NamesOf(BlueprintDefinitionLaws.Flatten(defs[1..]));
      var below := BlueprintDefinitionLaws.NamesOf(BlueprintDefinitionLaws.Flatten(defs[0].conditional));
      BlueprintDefinitionLaws.NamesStep(defs, 0);
      assert defs[0..] == defs;
      DistinctSplit([defs[0].name] + below, rest);
      TopLevelDistinct(defs[1..]);
      forall d | 1 <= d < |defs| ensures defs[d].name != defs[0].name {
        TopLevelListed(defs[1..], d - 1);
        assert defs[0].name in Elements([defs[0].name] + below);
      }
      assert forall d :: 1 <= d < |defs| ==> defs[1..][d - 1] == defs[d];
    }
  }

  /** The imports of an accepted blueprint have names that differ. */
  lemma AcceptedDefsDistinct(defs: seq<ImportDef>)
    requires CheckImports(defs).errors == []
    ensures DistinctDefs(defs)
  {
    BlueprintDefinitionLaws.ImportsAcceptedIff(defs);
    forall d | 0 <= d < |defs| ensures defs[d].name != "" {
      TopLevelFlattened(defs, d);
    }
    TopLevelDistinct(defs);
  }

  lemma ParentCountsOnce(defs: seq<ImportDef>, kind: Kind, ref: string)
    requires DistinctDefs(defs)
    ensures |ProvidingDefs(defs, kind, ref)| == if ref in Parent(defs, kind) then 1 else 0
  {
    var all := ProvidingDefs(defs, kind, ref);
    if ref in Parent(defs, kind) {
      var d: nat :| d < |defs| && Provides(defs[d], kind) && defs[d].name == ref;
      assert all == {d};
    } else {
      assert all == {};
    }
  }

  /** In an accepted blueprint the provider is one single definition or one single export entry. */
  lemma OneDefinitionOrEntry(defs: seq<ImportDef>, ts: seq<Template>, ps: seq<Profile>, i: nat, kind: Kind, ref: string)
    requires ps == Profiles(ts) && i < |ts|
    ensures CheckImports(defs).errors == [] && WiringIssues(defs, ts) == [] && Written(ts[i], kind, ref) ==>
      |ProvidingDefs(defs, kind, ref)| + multiset(AllExports(ps, kind))[ref] == 1
  {
    if CheckImports(defs).errors == [] && WiringIssues(defs, ts) == [] && Written(ts[i], kind, ref) {
      AcceptedDefsDistinct(defs);
      ParentCountsOnce(defs, kind, ref);
      UniqueProvider(defs, ts, ps, i, kind, ref);
    }
  }

  // ---------- Which template provides ----------

  lemma EarlierDiffers<T>(front: seq<seq<T>>, last: seq<T>, i: nat, k: nat)
    requires Elements(ConcatAll(front)) !! Elements(last)
    requires i < |front| && k < |front[i]|
    ensures forall j :: 0 <= j < |last| ==> last[j] != front[i][k]
  {
    InConcatAll(front, i, front[i][k]);
    assert front[i][k] in Elements(ConcatAll(front));
    assert forall j :: 0 <= j < |last| ==> last[j] in Elements(last);
  }

  /** An entry of a list of lists that has no repetitions is in one place only. */
  lemma {:induction false} OnePlace<T>(parts: seq<seq<T>>, i: nat, k: nat, i': nat, k': nat)
    requires Distinct(ConcatAll(parts))
    requires i < |parts| && k < |parts[i]| && i' < |parts| && k' < |parts[i']| && parts[i][k] == parts[i'][k']
    ensures i == i' && k == k'
  {
    var front, last := parts[..|parts| - 1], parts[|parts| - 1];
    DistinctSplit(ConcatAll(front), last);
    if i < |front| {
      EarlierDiffers(front, last, i, k);
    }
    if i' < |front| {
      EarlierDiffers(front, last, i', k');
    }
    if i < |front| && i' < |front| {
      OnePlace(front, i, k, i', k');
    }
  }

  lemma {:induction false} PlaceInConcatAll<T>(parts: seq<seq<T>>, x: T) returns (i: nat, k: nat)
    requires x in ConcatAll(parts)
    ensures i < |parts| && k < |parts[i]| && parts[i][k] == x
  {
    var front, last := parts[..|parts| - 1], parts[|parts| - 1];
    if x in last {
      i := |front|;
      k := Position(last, x);
    } else {
      i, k := PlaceInConcatAll(front, x);
    }
  }

  /** Entry `k` of the exports of template `j` is the only entry with this reference. */
  ghost predicate OnlyEntry(ps: seq<Profile>, kind: Kind, ref: string, j: nat, k: nat) {
    && j < |ps| && k < |ps[j].Exports(kind)| && ps[j].Exports(kind)[k] == ref
    && forall j': nat, k': nat :: j' < |ps| && k' < |ps[j'].Exports(kind)| && ps[j'].Exports(kind)[k'] == ref ==>
      j' == j && k' == k
  }

  lemma EntryFound(ps: seq<Profile>, kind: Kind, ref: string) returns (j: nat, k: nat)
    requires Distinct(AllExports(ps, kind)) && ref in AllExports(ps, kind)
    ensures OnlyEntry(ps, kind, ref, j, k)
  {
    var parts := ExportsByTemplate(ps, kind);
    j, k := PlaceInConcatAll(parts, ref);
    forall j': nat, k': nat | j' < |ps| && k' < |ps[j'].Exports(kind)| && ps[j'].Exports(kind)[k'] == ref
      ensures j' == j && k' == k
    {
      OnePlace(parts, j, k, j', k');
    }
  }

  lemma EntryCounts(ps: seq<Profile>, kind: Kind, ref: string, j: nat)
    requires j < |ps| && ref in ps[j].Exports(kind)
    ensures ref in AllExports(ps, kind)
  {
    InConcatAll(ExportsByTemplate(ps, kind), j, ref);
  }

  lemma ProvidedByEntryIff(parent: set<string>, ps: seq<Profile>, kind: Kind, ref: string)
    requires WiredUp(parent, ps, kind) && Providers(parent, ps, kind, ref) == 1
    ensures ref !in parent <==> exists j: nat, k: nat :: OnlyEntry(ps, kind, ref, j, k)
  {
    assert ref in AllExports(ps, kind) ==> ref in Elements(AllExports(ps, kind));
    if ref !in parent {
      var j, k := EntryFound(ps, kind, ref);
    }
    if j: nat, k: nat :| OnlyEntry(ps, kind, ref, j, k) {
      EntryCounts(ps, kind, ref, j);
    }
  }

  /** The export entries of a template are those written in it, one by one. */
  lemma ExportEntries(t: Template)
    ensures |ProfileOf(t).Exports(DataKind)| ==
      |t.exports.data| && |ProfileOf(t).Exports(TargetKind)| == |t.exports.targets|
    ensures forall k :: 0 <= k < |t.exports.data| ==> ProfileOf(t).Exports(DataKind)[k] == t.exports.data[k].dataRef
    ensures forall k :: 0 <= k < |t.exports.targets| ==>
      ProfileOf(t).Exports(TargetKind)[k] == t.exports.targets[k].target
    ensures ProfileOf(t).Exports(DescriptorKind) == []
  {
  }

  /** The provider by place: what the parent does not import stands in one entry of one template, and only that. */
  lemma ProviderPlace(defs: seq<ImportDef>, ts: seq<Template>, ps: seq<Profile>, i: nat, kind: Kind, ref: string)
    requires ps == Profiles(ts) && i < |ts|
    ensures WiringIssues(defs, ts) == [] && Written(ts[i], kind, ref) ==>
      (ref !in Parent(defs, kind) <==> exists j: nat, k: nat :: OnlyEntry(ps, kind, ref, j, k))
  {
    if WiringIssues(defs, ts) == [] && Written(ts[i], kind, ref) {
      WiringAcceptedIff(defs, ts, ps);
      UniqueProvider(defs, ts, ps, i, kind, ref);
      assert WiredUp(Parent(defs, kind), ps, kind);
      ProvidedByEntryIff(Parent(defs, kind), ps, kind, ref);
    }
  }

  lemma OtherEntryIff(parent: set<string>, ps: seq<Profile>, kind: Kind, ref: string, i: nat)
    requires WiredUp(parent, ps, kind) && Providers(parent, ps, kind, ref) == 1 && i < |ps|
    ensures (ref in parent || exists j: nat, k: nat :: j != i && OnlyEntry(ps, kind, ref, j, k)) <==>
      ref !in ps[i].Exports(kind)
  {
    ProvidedByEntryIff(parent, ps, kind, ref);
    if ref in ps[i].Exports(kind) {
      var k := Position(ps[i].Exports(kind), ref);
      EntryCounts(ps, kind, ref, i);
      assert ref in Elements(AllExports(ps, kind));
    }
  }

  /**
   What a template imports comes from the parent or from another template exactly when the template does not
   export it itself.
   */
  lemma SiblingProvidesIff(defs: seq<ImportDef>, ts: seq<Template>, ps: seq<Profile>, i: nat, kind: Kind, ref: string)
    requires ps == Profiles(ts) && i < |ts|
    ensures WiringIssues(defs, ts) == [] && Written(ts[i], kind, ref) ==>
      ((ref in Parent(defs, kind) || exists j: nat, k: nat :: j != i && OnlyEntry(ps, kind, ref, j, k))
        <==> ref !in ps[i].Exports(kind))
  {
    if WiringIssues(defs, ts) == [] && Written(ts[i], kind, ref) {
      WiringAcceptedIff(defs, ts, ps);
      UniqueProvider(defs, ts, ps, i, kind, ref);
      assert WiredUp(Parent(defs, kind), ps, kind);
      OtherEntryIff(Parent(defs, kind), ps, kind, ref, i);
    }
  }

  lemma OneTemplate(ps: seq<Profile>, kind: Kind)
    requires |ps| == 1
    ensures AllExports(ps, kind) == ps[0].Exports(kind) && AllImports(ps, kind) == ps[0].Imports(kind)
  {
    var exports, imports := ExportsByTemplate(ps, kind), ImportsByTemplate(ps, kind);
    ConcatAllStep(exports, 0);
    ConcatAllStep(imports, 0);
    assert exports[..1] == exports && imports[..1] == imports;
  }

  function SelfSupplier(ref: string): Template {
    Template("a", 0, "blueprint", false, Imports([DataImport("in", ref, None, None)], [], []),
             Exports([DataExport("out", ref)], []))
  }

  lemma SelfSupplierIssues(ref: string)
    requires ref != ""
    ensures TemplateIssues(SelfSupplier(ref)) == []
  {
    var t := SelfSupplier(ref);
    TemplateImportsAcceptedIff(t.imports);
    ExportsAcceptedIff(t.exports);
    TemplateOkIff(t);
  }

  lemma SelfSupplierOk(ref: string)
    requires ref != ""
    ensures ProfileOf(SelfSupplier(ref)) == Profile("a", [ref], [], [ref], [], [], [])
  {
    SelfSupplierIssues(ref);
  }

  lemma SelfSupplierWired(ref: string, ps: seq<Profile>, kind: Kind)
    requires ps == [Profile("a", [ref], [], [ref], [], [], [])]
    ensures WiredUp(Parent([], kind), ps, kind)
  {
    OneTemplate(ps, kind);
    assert Parent([], kind) == {};
  }

  lemma SelfSupplierAccepted(ref: string, ps: seq<Profile>)
    requires ps == [Profile("a", [ref], [], [ref], [], [], [])]
    ensures ProfileIssues(Parent([], DataKind), Parent([], TargetKind), Parent([], DescriptorKind), ps) == []
  {
    SelfSupplierWired(ref, ps, DataKind);
    SelfSupplierWired(ref, ps, TargetKind);
    SelfSupplierWired(ref, ps, DescriptorKind);
    ProfilesAcceptedIff(Parent([], DataKind), Parent([], TargetKind), Parent([], DescriptorKind), ps);
  }

  /** The provider need not be another template: a template that imports what it exports itself is accepted. */
  lemma OwnExportSatisfies(ref: string)
    requires ref != ""
    ensures WiringIssues([], [SelfSupplier(ref)]) == []
  {
    var t := SelfSupplier(ref);
    SelfSupplierOk(ref);
    assert Profiles([t]) == [ProfileOf(t)];
    SelfSupplierAccepted(ref, Profiles([t]));
  }

  // ---------- References to target lists ----------

  lemma OneOfEnds(middle: bool)
    ensures JustOne([true, middle, false]) <==> !middle
    ensures JustOne([false, middle, true]) <==> !middle
  {
    var a, b := [true, middle, false], [false, middle, true];
    assert a[0] && b[2];
    if middle {
      assert a[1] && b[1];
    }
  }

  /**
   The check does not tell a reference to a target list from a reference to a single target: whatever satisfies
   one satisfies the other.
   */
  lemma ListReferenceLikeTarget(imp: TargetImport)
    requires imp.target != "" && imp.targetListReference == ""
    ensures var other := imp.(target := "", targetListReference := imp.target);
      TargetOk(other) == TargetOk(imp) && (TargetOk(imp) ==> CollectedTargets(other) == CollectedTargets(imp))
  {
    assert JustOne([true, imp.targets.Some?, false]) <==> imp.targets.None? by {
      OneOfEnds(imp.targets.Some?);
    }
    assert JustOne([false, imp.targets.Some?, true]) <==> imp.targets.None? by {
      OneOfEnds(imp.targets.Some?);
    }
  }

  predicate WritesListReference(t: Template, ref: string) {
    ref != "" && exists k :: 0 <= k < |t.imports.targets| && t.imports.targets[k].targetListReference == ref
  }

  /** A target list that the parent imports. */
  predicate ListOfParent(defs: seq<ImportDef>, ref: string) {
    exists d :: 0 <= d < |defs| && defs[d].name == ref && defs[d].importType == TARGET_LIST
  }

  /** A single target that the parent imports. */
  predicate TargetOfParent(defs: seq<ImportDef>, ref: string) {
    exists d :: 0 <= d < |defs| && defs[d].name == ref && ProvidesTarget(defs[d]) && defs[d].importType != TARGET_LIST
  }

  lemma ParentTargets(defs: seq<ImportDef>, ref: string)
    requires DistinctDefs(defs)
    ensures ref in Parent(defs, TargetKind) <==> ListOfParent(defs, ref) || TargetOfParent(defs, ref)
    ensures !(ListOfParent(defs, ref) && TargetOfParent(defs, ref))
  {
    assert TARGET_LIST != "" by {
      BlueprintDefinitionLaws.TypesDiffer();
    }
    if d :| 0 <= d < |defs| && defs[d].name == ref && defs[d].importType == TARGET_LIST {
      assert Provides(defs[d], TargetKind);
    }
    if d :| 0 <= d < |defs| && defs[d].name == ref && ProvidesTarget(defs[d]) && defs[d].importType != TARGET_LIST {
      assert Provides(defs[d], TargetKind);
    }
  }

  lemma ListReferenceWritten(t: Template, ref: string)
    requires WritesListReference(t, ref)
    ensures Written(t, TargetKind, ref)
  {
    var k :| 0 <= k < |t.imports.targets| && t.imports.targets[k].targetListReference == ref;
    assert ref in WrittenTargets(t.imports.targets[k]);
  }

  /**
   A reference to a target list leads to a target list of the parent exactly when no template exports a target
   and the parent imports no single target with this name.
   */
  lemma ListReferenceLeadsToListIff(defs: seq<ImportDef>, ts: seq<Template>, ps: seq<Profile>, i: nat, ref: string)
    requires ps == Profiles(ts) && i < |ts| && DistinctDefs(defs)
    ensures WiringIssues(defs, ts) == [] && WritesListReference(ts[i], ref) ==>
      (ListOfParent(defs, ref) <==> ref !in AllExports(ps, TargetKind) && !TargetOfParent(defs, ref))
  {
    if WiringIssues(defs, ts) == [] && WritesListReference(ts[i], ref) {
      ListReferenceWritten(ts[i], ref);
      UniqueProvider(defs, ts, ps, i, TargetKind, ref);
      ParentTargets(defs, ref);
    }
  }

  function Supplier(ref: string): Template {
    Template("a", 0, "blueprint", false, Imports([], [], []), Exports([], [TargetExport("out", ref)]))
  }

  function ListUser(ref: string): Template {
    Template("b", 0, "blueprint", false, Imports([], [TargetImport("in", "", None, ref)], []), Exports([], []))
  }

  lemma SupplierIssues(ref: string)
    requires ref != ""
    ensures TemplateIssues(Supplier(ref)) == []
  {
    var t := Supplier(ref);
    TemplateImportsAcceptedIff(t.imports);
    ExportsAcceptedIff(t.exports);
    TemplateOkIff(t);
  }

  lemma SupplierOk(ref: string)
    requires ref != ""
    ensures ProfileOf(Supplier(ref)) == Profile("a", [], [ref], [], [], [], [])
  {
    SupplierIssues(ref);
  }

  lemma ListUserImports(ref: string)
    requires ref != ""
    ensures TemplateImportIssues(ListUser(ref).imports) == []
  {
    var imports := ListUser(ref).imports;
    OneOfEnds(false);
    assert TargetOk(imports.targets[0]);
    TemplateImportsAcceptedIff(imports);
  }

  lemma ListUserIssues(ref: string)
    requires ref != ""
    ensures TemplateIssues(ListUser(ref)) == []
  {
    ListUserImports(ref);
    ExportsAcceptedIff(ListUser(ref).exports);
    TemplateOkIff(ListUser(ref));
  }

  lemma ListUserOk(ref: string)
    requires ref != ""
    ensures ProfileOf(ListUser(ref)) == Profile("b", [], [], [], [ref], [], [])
  {
    ListUserIssues(ref);
    ConcatAllStep(TargetImportRefs(ListUser(ref).imports.targets), 0);
  }

  lemma SuppliedWired(ref: string, ps: seq<Profile>, kind: Kind)
    requires ps == [Profile("a", [], [ref], [], [], [], []), Profile("b", [], [], [], [ref], [], [])]
    ensures WiredUp(Parent([], kind), ps, kind)
  {
    var exports, imports := ExportsByTemplate(ps, kind), ImportsByTemplate(ps, kind);
    ConcatAllStep(exports, 0);
    ConcatAllStep(exports, 1);
    ConcatAllStep(imports, 0);
    ConcatAllStep(imports, 1);
    assert exports[..2] == exports && imports[..2] == imports;
    assert Parent([], kind) == {};
  }

  lemma TwoProfiles(s: Template, t: Template)
    ensures Profiles([s, t]) == [ProfileOf(s), ProfileOf(t)]
  {
  }

  lemma SuppliedAccepted(ref: string, ps: seq<Profile>)
    requires ps == [Profile("a", [], [ref], [], [], [], []), Profile("b", [], [], [], [ref], [], [])]
    ensures ProfileIssues(Parent([], DataKind), Parent([], TargetKind), Parent([], DescriptorKind), ps) == []
  {
    SuppliedWired(ref, ps, DataKind);
    SuppliedWired(ref, ps, TargetKind);
    SuppliedWired(ref, ps, DescriptorKind);
    ProfilesAcceptedIff(Parent([], DataKind), Parent([], TargetKind), Parent([], DescriptorKind), ps);
  }

  /**
   The provider need not be a list of the parent: a reference to a target list is satisfied by a target that
   another template exports.
   */
  lemma ExportSatisfiesListReference(ref: string)
    requires ref != ""
    ensures WiringIssues([], [Supplier(ref), ListUser(ref)]) == []
  {
    var s, t := Supplier(ref), ListUser(ref);
    SupplierOk(ref);
    ListUserOk(ref);
    TwoProfiles(s, t);
    SuppliedAccepted(ref, Profiles([s, t]));
  }
}
