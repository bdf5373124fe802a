/** When the wiring of sub-installations is accepted. */
module WiringLaws {
  import opened Basics
  import opened BlueprintDefinitions
  import opened InstallationImports
  import opened Wiring

  // ---------- Exports ----------

  lemma {:induction false} NoClashesIff(kind: Kind, refs: seq<string>, n: nat, exported: set<string>,
                                        parent: set<string>)
    requires n <= |refs|
    ensures Clashes(kind, refs, n, exported, parent) == [] <==>
      forall k :: 0 <= k < n ==> refs[k] !in exported + Elements(refs[..k]) && refs[k] !in parent
  {
    if n > 0 {
      var i: nat := n - 1;
      NoClashesIff(kind, refs, i, exported, parent);
    }
  }

  /** The references are new, different from each other, and none of them comes from the parent. */
  predicate NewExports(refs: seq<string>, exported: set<string>, parent: set<string>) {
    Distinct(refs) && Elements(refs) !! exported && Elements(refs) !! parent
  }

  lemma NewExportsIff(kind: Kind, refs: seq<string>, exported: set<string>, parent: set<string>)
    ensures Clashes(kind, refs, |refs|, exported, parent) == [] <==> NewExports(refs, exported, parent)
  {
    NoClashesIff(kind, refs, |refs|, exported, parent);
    if forall k :: 0 <= k < |refs| ==> refs[k] !in exported + Elements(refs[..k]) && refs[k] !in parent {
      forall i, j | 0 <= i < j < |refs| ensures refs[i] != refs[j] {
        assert refs[i] in Elements(refs[..j]);
        assert refs[j] !in exported + Elements(refs[..j]);
      }
    }
    if NewExports(refs, exported, parent) {
      forall k | 0 <= k < |refs| ensures refs[k] !in exported + Elements(refs[..k]) && refs[k] !in parent {
        assert refs[k] in Elements(refs);
      }
    }
  }

  lemma NewExportsConcat(a: seq<string>, b: seq<string>, parent: set<string>)
    ensures NewExports(a + b, {}, parent) <==> NewExports(a, {}, parent) && NewExports(b, Elements(a), parent)
  {
    ElementsConcat(a, b);
    if NewExports(a + b, {}, parent) {
      DistinctSplit(a, b);
    }
    if NewExports(a, {}, parent) && NewExports(b, Elements(a), parent) {
      DistinctConcat(a, b);
    }
  }

  lemma AllNewStep(parts: seq<seq<string>>, i: nat, parent: set<string>)
    requires i < |parts|
    ensures NewExports(ConcatAll(parts[..i + 1]), {}, parent) <==>
      NewExports(ConcatAll(parts[..i]), {}, parent) && NewExports(parts[i], Elements(ConcatAll(parts[..i])), parent)
  {
    ConcatAllStep(parts, i);
    NewExportsConcat(ConcatAll(parts[..i]), parts[i], parent);
  }

  /** Every part is new with respect to the parts before it exactly when nothing occurs twice in the whole. */
  lemma {:induction false} AllNewIff(parts: seq<seq<string>>, n: nat, parent: set<string>)
    requires n <= |parts|
    ensures (forall i :: 0 <= i < n ==> NewExports(parts[i], Elements(ConcatAll(parts[..i])), parent)) <==>
      NewExports(ConcatAll(parts[..n]), {}, parent)
  {
    if n > 0 {
      var i: nat := n - 1;
      AllNewIff(parts, i, parent);
      AllNewStep(parts, i, parent);
    }
  }

  lemma ExportsClashFreeIff(parent: set<string>, ps: seq<Profile>, kind: Kind)
    ensures (forall i :: 0 <= i < |ps| ==> ClashesOf(parent, ps, i, kind) == []) <==>
      Distinct(AllExports(ps, kind)) && Elements(AllExports(ps, kind)) !! parent
  {
    var parts := ExportsByTemplate(ps, kind);
    AllNewIff(parts, |ps|, parent);
    assert parts[..|ps|] == parts;
    forall i | 0 <= i < |ps|
      ensures ClashesOf(parent, ps, i, kind) == [] <==> NewExports(parts[i], Elements(ConcatAll(parts[..i])), parent)
    {
      NewExportsIff(kind, parts[i], ExportedBefore(ps, i, kind), parent);
    }
  }

  // ---------- Imports ----------

  lemma {:induction false} SatisfiedIff(kind: Kind, refs: seq<string>, n: nat, exports: set<string>,
                                        parent: set<string>)
    requires n <= |refs|
    ensures Unsatisfied(kind, refs, n, exports, parent) == [] <==>
      forall k :: 0 <= k < n ==> refs[k] in exports + parent
  {
    if n > 0 {
      var i: nat := n - 1;
      SatisfiedIff(kind, refs, i, exports, parent);
    }
  }

  lemma AllSatisfiedIff(parent: set<string>, ps: seq<Profile>, kind: Kind)
    ensures UnsatisfiedOf(parent, ps, kind) == [] <==>
      Elements(AllImports(ps, kind)) <= Elements(AllExports(ps, kind)) + parent
  {
    var refs := AllImports(ps, kind);
    SatisfiedIff(kind, refs, |refs|, Elements(AllExports(ps, kind)), parent);
    if UnsatisfiedOf(parent, ps, kind) != [] {
      var k :| 0 <= k < |refs| && refs[k] !in Elements(AllExports(ps, kind)) + parent;
      assert refs[k] in Elements(refs);
    }
  }

  // ---------- Templates ----------

  predicate TemplateOk(t: Template) {
    && t.name != "" && t.nameMessages == 0 && |t.name| <= 52
    && (t.blueprintRef != "" || t.filesystemGiven)
    && TemplateImportIssues(t.imports) == [] && ExportIssues(t.exports) == []
  }

  lemma TemplateOkIff(t: Template)
    ensures TemplateIssues(t) == [] <==> TemplateOk(t)
  {
    assert |seq(t.nameMessages, _ => TemplateNameInvalid)| == t.nameMessages;
    assert |"Inst."| == 5;
    var a, b, c, d := NameIssues(t), if t.blueprintRef == "" && !t.filesystemGiven then [BlueprintRequired] else [],
                      OfImports(TemplateImportIssues(t.imports)), OfExports(ExportIssues(t.exports));
    FourEmpty(a, b, c, d);
  }

  /** The exports of a kind differ from each other and from what the parent imports, and every import is one of them. */
  predicate WiredUp(parent: set<string>, ps: seq<Profile>, kind: Kind) {
    && Distinct(AllExports(ps, kind))
    && Elements(AllExports(ps, kind)) !! parent
    && Elements(AllImports(ps, kind)) <= Elements(AllExports(ps, kind)) + parent
  }

  lemma StepEmptyIff(parentData: set<string>, parentTargets: set<string>, ps: seq<Profile>, i: nat)
    requires i < |ps|
    ensures StepIssues(parentData, parentTargets, ps)[i] == [] <==>
      && ClashesOf(parentData, ps, i, DataKind) == [] && ClashesOf(parentTargets, ps, i, TargetKind) == []
      && ps[i].own == [] && NameClash(ps[i].name, NamesBefore(ps, i)) == []
  {
    assert |InTemplates(i, ps[i].own)| == |ps[i].own|;
    FourEmpty(ClashesOf(parentData, ps, i, DataKind), ClashesOf(parentTargets, ps, i, TargetKind),
              InTemplates(i, ps[i].own),
              NameClash(ps[i].name, NamesBefore(ps, i)));
  }

  lemma StepsEmptyIff(parentData: set<string>, parentTargets: set<string>, ps: seq<Profile>)
    ensures ConcatAll(StepIssues(parentData, parentTargets, ps)) == [] <==>
      && (forall i :: 0 <= i < |ps| ==> ClashesOf(parentData, ps, i, DataKind) == [])
      && (forall i :: 0 <= i < |ps| ==> ClashesOf(parentTargets, ps, i, TargetKind) == [])
      && (forall i :: 0 <= i < |ps| ==> ps[i].own == [])
      && (forall i :: 0 <= i < |ps| ==> NameClash(ps[i].name, NamesBefore(ps, i)) == [])
  {
    var steps := StepIssues(parentData, parentTargets, ps);
    ConcatAllEmpty(steps);
    forall i | 0 <= i < |ps| ensures steps[i] == [] <==>
      && ClashesOf(parentData, ps, i, DataKind) == [] && ClashesOf(parentTargets, ps, i, TargetKind) == []
      && ps[i].own == [] && NameClash(ps[i].name, NamesBefore(ps, i)) == []
    {
      StepEmptyIff(parentData, parentTargets, ps, i);
    }
  }

  predicate DistinctProfiles(ps: seq<Profile>) {
    forall i, j :: 0 <= i < j < |ps| ==> ps[i].name != ps[j].name
  }

  lemma NamesClashFreeIff(ps: seq<Profile>)
    requires forall i :: 0 <= i < |ps| ==> ps[i].name != ""
    ensures (forall i :: 0 <= i < |ps| ==> NameClash(ps[i].name, NamesBefore(ps, i)) == []) <==> DistinctProfiles(ps)
  {
    if forall i :: 0 <= i < |ps| ==> NameClash(ps[i].name, NamesBefore(ps, i)) == [] {
      forall i, j | 0 <= i < j < |ps| ensures ps[i].name != ps[j].name {
        assert NameClash(ps[j].name, NamesBefore(ps, j)) == [];
        assert ps[i].name in NamesBefore(ps, j);
      }
    }
  }

  lemma NoDescriptorExports(ps: seq<Profile>)
    ensures AllExports(ps, DescriptorKind) == []
  {
    ConcatAllEmpty(ExportsByTemplate(ps, DescriptorKind));
  }

  lemma ProfilesAcceptedIff(d: set<string>, t: set<string>, c: set<string>, ps: seq<Profile>)
    requires forall i :: 0 <= i < |ps| && ps[i].own == [] ==> ps[i].name != ""
    ensures ProfileIssues(d, t, c, ps) == [] <==>
      && (forall i :: 0 <= i < |ps| ==> ps[i].own == [])
      && DistinctProfiles(ps)
      && WiredUp(d, ps, DataKind) && WiredUp(t, ps, TargetKind) && WiredUp(c, ps, DescriptorKind)
  {
    StepsEmptyIff(d, t, ps);
    ExportsClashFreeIff(d, ps, DataKind);
    ExportsClashFreeIff(t, ps, TargetKind);
    AllSatisfiedIff(d, ps, DataKind);
    AllSatisfiedIff(t, ps, TargetKind);
    AllSatisfiedIff(c, ps, DescriptorKind);
    NoDescriptorExports(ps);
    FourEmpty(ConcatAll(StepIssues(d, t, ps)), UnsatisfiedOf(d, ps, DataKind), UnsatisfiedOf(t, ps, TargetKind),
              UnsatisfiedOf(c, ps, DescriptorKind));
    if forall i :: 0 <= i < |ps| ==> ps[i].own == [] {
      NamesClashFreeIff(ps);
    }
  }

  ghost predicate AllTemplatesOk(ts: seq<Template>) {
    forall i {:trigger TemplateOk(ts[i])} :: 0 <= i < |ts| ==> TemplateOk(ts[i])
  }

  lemma OwnIff(ts: seq<Template>, ps: seq<Profile>, i: nat)
    requires Fits(ts, ps) && i < |ts|
    ensures ps[i].own == [] <==> TemplateOk(ts[i])
    ensures ps[i].name == ts[i].name
    ensures ps[i].own == [] ==> ps[i].name != ""
  {
    assert ps[i] == ProfileOf(ts[i]);
    TemplateOkIff(ts[i]);
  }

  lemma AllOwnIff(ts: seq<Template>, ps: seq<Profile>)
    requires Fits(ts, ps)
    ensures (forall i :: 0 <= i < |ps| ==> ps[i].own == []) <==> AllTemplatesOk(ts)
    ensures forall i :: 0 <= i < |ps| ==> ps[i].name == ts[i].name
    ensures forall i :: 0 <= i < |ps| && ps[i].own == [] ==> ps[i].name != ""
  {
    forall i | 0 <= i < |ps|
      ensures (ps[i].own == [] <==> TemplateOk(ts[i])) && ps[i].name == ts[i].name
      ensures ps[i].own == [] ==> ps[i].name != ""
    {
      OwnIff(ts, ps, i);
    }
  }

  lemma ProfilesFit(ts: seq<Template>)
    ensures Fits(ts, Profiles(ts))
  {
  }

  lemma AcceptedIffFor(d: set<string>, t: set<string>, c: set<string>, ts: seq<Template>, ps: seq<Profile>)
    requires Fits(ts, ps)
    ensures ProfileIssues(d, t, c, ps) == [] <==>
      && AllTemplatesOk(ts)
      && (forall i, j :: 0 <= i < j < |ts| ==> ts[i].name != ts[j].name)
      && WiredUp(d, ps, DataKind) && WiredUp(t, ps, TargetKind) && WiredUp(c, ps, DescriptorKind)
  {
    AllOwnIff(ts, ps);
    ProfilesAcceptedIff(d, t, c, ps);
  }

  /**
   The templates are accepted exactly when each is in order by itself, their names differ, no two exports of a
   kind share a name with each other or with an import of the parent, and every collected reference is exported
   or imported by the parent.
   */
  lemma WiringAcceptedIff(defs: seq<ImportDef>, ts: seq<Template>, ps: seq<Profile>)
    requires ps == Profiles(ts)
    ensures WiringIssues(defs, ts) == [] <==>
      && AllTemplatesOk(ts)
      && (forall i, j :: 0 <= i < j < |ts| ==> ts[i].name != ts[j].name)
      && WiredUp(Parent(defs, DataKind), ps, DataKind)
      && WiredUp(Parent(defs, TargetKind), ps, TargetKind)
      && WiredUp(Parent(defs, DescriptorKind), ps, DescriptorKind)
  {
    ProfilesFit(ts);
    AcceptedIffFor(Parent(defs, DataKind), Parent(defs, TargetKind), Parent(defs, DescriptorKind), ts, ps);
  }
}
