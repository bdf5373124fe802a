/**
 Defaulting of installations.  The loops work on copies of the import structs, but the references in
 them are pointers, which may be shared: what is written through a copy is seen everywhere.
 */
module InstallationDefaults {
  import opened Basics
  import opened InstallationImports

  /** A reference to a secret or a config map. */
  class Reference {
    var name: string
    var namespace: string
  }

  class ComponentReference {
    var repositoryContext: Option<string>
    var componentName: string
    var version: string
  }

  datatype DataImportStruct = DataImportStruct(name: string, dataRef: string, secretRef: Reference?,
                                               configMapRef: Reference?)

  datatype DescriptorDataStruct = DescriptorDataStruct(ref: ComponentReference?, secretRef: Reference?,
                                                       configMapRef: Reference?, dataRef: string)

  datatype DescriptorImportStruct = DescriptorImportStruct(
    name: string,
    ref: ComponentReference?,
    secretRef: Reference?,
    configMapRef: Reference?,
    list: Option<seq<DescriptorDataStruct>>,
    dataRef: string)

  const DEFAULT_CONTEXT_NAME := "default"

  // ---------- What is reachable ----------

  function Refs(a: Reference?, b: Reference?): set<Reference> {
    (if a == null then {} else {a}) + (if b == null then {} else {b})
  }

  function Comps(c: ComponentReference?): set<ComponentReference> {
    if c == null then {} else {c}
  }

  function DataReferences(data: seq<DataImportStruct>): set<Reference> {
    if data == [] then {}
    else
      var last := data[|data| - 1];
      DataReferences(data[..|data| - 1]) + Refs(last.configMapRef, last.secretRef)
  }

  function ListReferences(list: seq<DescriptorDataStruct>): set<Reference> {
    if list == [] then {}
    else
      var last := list[|list| - 1];
      ListReferences(list[..|list| - 1]) + Refs(last.configMapRef, last.secretRef)
  }

  function ListComponents(list: seq<DescriptorDataStruct>): set<ComponentReference> {
    if list == [] then {} else ListComponents(list[..|list| - 1]) + Comps(list[|list| - 1].ref)
  }

  function ElementsOf(imp: DescriptorImportStruct): seq<DescriptorDataStruct> {
    if imp.list.Some? then imp.list.value else []
  }

  function ImportReferences(imp: DescriptorImportStruct): set<Reference> {
    Refs(imp.configMapRef, imp.secretRef) + ListReferences(ElementsOf(imp))
  }

  function ImportComponents(imp: DescriptorImportStruct): set<ComponentReference> {
    Comps(imp.ref) + ListComponents(ElementsOf(imp))
  }

  function DescriptorReferences(imports: seq<DescriptorImportStruct>): set<Reference> {
    if imports == [] then {}
    else DescriptorReferences(imports[..|imports| - 1]) + ImportReferences(imports[|imports| - 1])
  }

  function DescriptorComponents(imports: seq<DescriptorImportStruct>): set<ComponentReference> {
    if imports == [] then {}
    else DescriptorComponents(imports[..|imports| - 1]) + ImportComponents(imports[|imports| - 1])
  }

  // ---------- As values ----------

  /** What the pointers lead to at one moment. */
  datatype Store = Store(refs: map<Reference, ObjectReference>, comps: map<ComponentReference, DescriptorReference>)

  ghost function StoreOf(refs: set<Reference>, comps: set<ComponentReference>): Store
    reads refs, comps
  {
    Store(map r | r in refs :: ObjectReference(r.name, r.namespace),
          map c | c in comps :: DescriptorReference(c.repositoryContext, c.componentName, c.version))
  }

  ghost function ReferenceValue(r: Reference?, store: Store): Option<ObjectReference> {
    if r == null || r !in store.refs then None else Some(store.refs[r])
  }

  ghost function ComponentValue(c: ComponentReference?, store: Store): Option<DescriptorReference> {
    if c == null || c !in store.comps then None else Some(store.comps[c])
  }

  ghost function DataValue(imp: DataImportStruct, store: Store): DataImport {
    DataImport(imp.name, imp.dataRef, ReferenceValue(imp.secretRef, store), ReferenceValue(imp.configMapRef, store))
  }

  ghost function ElementValue(e: DescriptorDataStruct, store: Store): DescriptorData {
    DescriptorData(ComponentValue(e.ref, store), ReferenceValue(e.secretRef, store),
                   ReferenceValue(e.configMapRef, store), e.dataRef)
  }

  ghost function ListValue(list: seq<DescriptorDataStruct>, store: Store): seq<DescriptorData> {
    seq(|list|, i requires 0 <= i < |list| => ElementValue(list[i], store))
  }

  ghost function DescriptorValue(imp: DescriptorImportStruct, store: Store): DescriptorImport {
    DescriptorImport(imp.name, ComponentValue(imp.ref, store), ReferenceValue(imp.secretRef, store),
                     ReferenceValue(imp.configMapRef, store),
                     if imp.list.Some? then Some(ListValue(imp.list.value, store)) else None, imp.dataRef)
  }

  ghost function ImportsValue(data: seq<DataImportStruct>, targets: seq<TargetImport>,
                              descriptors: seq<DescriptorImportStruct>,
                              store: Store): Imports
  {
    Imports(seq(|data|, i requires 0 <= i < |data| => DataValue(data[i], store)), targets,
            seq(|descriptors|, i requires 0 <= i < |descriptors| => DescriptorValue(descriptors[i], store)))
  }

  function BaseContextOf(specReference: ComponentReference?): Option<string>
    reads specReference
  {
    if specReference == null then None else specReference.repositoryContext
  }

  class Installation {
    const namespace: string
    var context: string
    const data: seq<DataImportStruct>
    const targets: seq<TargetImport>
    const componentDescriptors: seq<DescriptorImportStruct>
    /** The reference in the component descriptor of the specification, if there is one. */
    const specReference: ComponentReference?

    constructor (namespace: string, context: string, data: seq<DataImportStruct>, targets: seq<TargetImport>,
                 componentDescriptors: seq<DescriptorImportStruct>, specReference: ComponentReference?)
      ensures this.namespace == namespace && this.context == context && this.data == data && this.targets == targets
      ensures this.componentDescriptors == componentDescriptors && this.specReference == specReference
    {
      this.namespace, this.context, this.data, this.targets := namespace, context, data, targets;
      this.componentDescriptors, this.specReference := componentDescriptors, specReference;
    }

    /** The repository context that component references without one get. */
    function BaseContext(): Option<string>
      reads specReference
    {
      BaseContextOf(specReference)
    }

    function References(): set<Reference> {
      DataReferences(data) + DescriptorReferences(componentDescriptors)
    }

    function ComponentReferences(): set<ComponentReference> {
      DescriptorComponents(componentDescriptors)
    }

    /** The imports as values. */
    ghost function Value(): Imports
      reads References(), ComponentReferences()
    {
      ImportsValue(data, targets, componentDescriptors, StoreOf(References(), ComponentReferences()))
    }
  }

  // ---------- Defaults, on values ----------

  function DefaultedNamespace(namespace: string, default: string): string {
    if namespace == "" then default else namespace
  }

  function DefaultedContext(context: Option<string>, base: Option<string>): Option<string> {
    if context.None? then base else context
  }

  function DefaultedReference(or: Option<ObjectReference>, namespace: string): Option<ObjectReference> {
    if or.None? then None else Some(or.value.(namespace := DefaultedNamespace(or.value.namespace, namespace)))
  }

  function DefaultedComponent(c: Option<DescriptorReference>, base: Option<string>): Option<DescriptorReference> {
    if c.None? then None else Some(c.value.(repositoryContext := DefaultedContext(c.value.repositoryContext, base)))
  }

  function DefaultedData(imp: DataImport, namespace: string): DataImport {
    imp.(secretRef := DefaultedReference(imp.secretRef, namespace),
         configMapRef := DefaultedReference(imp.configMapRef, namespace))
  }

  function DefaultedElement(cd: DescriptorData, namespace: string, base: Option<string>): DescriptorData {
    DescriptorData(DefaultedComponent(cd.ref, base), DefaultedReference(cd.secretRef, namespace),
                   DefaultedReference(cd.configMapRef, namespace), cd.dataRef)
  }

  function DefaultedList(list: seq<DescriptorData>, namespace: string, base: Option<string>): seq<DescriptorData> {
    seq(|list|, i requires 0 <= i < |list| => DefaultedElement(list[i], namespace, base))
  }

  function DefaultedDescriptor(imp: DescriptorImport, namespace: string, base: Option<string>): DescriptorImport {
    DescriptorImport(imp.name, DefaultedComponent(imp.ref, base), DefaultedReference(imp.secretRef, namespace),
                     DefaultedReference(imp.configMapRef, namespace),
                     if imp.list.Some? then Some(DefaultedList(imp.list.value, namespace, base)) else None, imp.dataRef)
  }

  function DefaultedDatas(data: seq<DataImport>, namespace: string): seq<DataImport> {
    seq(|data|, i requires 0 <= i < |data| => DefaultedData(data[i], namespace))
  }

  function DefaultedDescriptors(imports: seq<DescriptorImport>, namespace: string,
                                base: Option<string>): seq<DescriptorImport>
  {
    seq(|imports|, i requires 0 <= i < |imports| => DefaultedDescriptor(imports[i], namespace, base))
  }

  function DefaultedImports(imports: Imports, namespace: string, base: Option<string>): Imports {
    Imports(DefaultedDatas(imports.data, namespace), imports.targets,
            DefaultedDescriptors(imports.componentDescriptors, namespace, base))
  }

  // ---------- In place ----------

  /** Every reference in `refs` keeps the namespace it has, or gets the default, wherever it is shared. */
  twostate predicate NamespacesDefaulted(refs: set<Reference>, namespace: string)
    reads refs
  {
    forall r :: r in refs ==>
      && (old(r.namespace) != "" ==> r.namespace == old(r.namespace))
      && (old(r.namespace) == "" ==> r.namespace == namespace)
  }

  twostate predicate ContextsDefaulted(comps: set<ComponentReference>, base: Option<string>)
    reads comps
  {
    forall c :: c in comps ==>
      && (old(c.repositoryContext).Some? ==> c.repositoryContext == old(c.repositoryContext))
      && (old(c.repositoryContext).None? ==> c.repositoryContext == base)
  }

  /** From one moment to another, the given pointers are defaulted, and what the others lead to is as it was. */
  ghost predicate Handled(before: Store, after: Store, refs: set<Reference>, comps: set<ComponentReference>,
                          namespace: string, base: Option<string>)
  {
    && after.refs.Keys == before.refs.Keys && after.comps.Keys == before.comps.Keys
    && (forall r :: r in before.refs ==>
          var was := before.refs[r].namespace;
          after.refs[r].namespace == if r in refs && was == "" then namespace else was)
    && (forall c :: c in before.comps ==>
          var context := before.comps[c].repositoryContext;
          after.comps[c].repositoryContext == if c in comps && context.None? then base else context)
  }

  /** Defaulting some more pointers extends what is handled; handling a shared pointer again does not matter. */
  lemma HandledThen(before: Store, now: Store, after: Store, refs: set<Reference>, comps: set<ComponentReference>,
                    refs': set<Reference>, comps': set<ComponentReference>, namespace: string, base: Option<string>)
    requires Handled(before, now, refs, comps, namespace, base) && Handled(now, after, refs', comps', namespace, base)
    ensures Handled(before, after, refs + refs', comps + comps', namespace, base)
  {
  }

  method DefaultNamespace(r: Reference?, namespace: string)
    modifies Refs(r, null)`namespace
    ensures NamespacesDefaulted(Refs(r, null), namespace)
  {
    if r != null {
      if |r.namespace| == 0 {
        r.namespace := namespace;
      }
    }
  }

  method DefaultRepositoryContext(c: ComponentReference?, specReference: ComponentReference?)
    modifies Comps(c)`repositoryContext
    ensures ContextsDefaulted(Comps(c), old(BaseContextOf(specReference)))
    ensures BaseContextOf(specReference) == old(BaseContextOf(specReference))
  {
    if c != null {
      if c.repositoryContext.None? {
        if specReference != null {
          c.repositoryContext := specReference.repositoryContext;
        }
      }
    }
  }

  // `refs` and `comps` are the pointers under observation: those that are not defaulted keep their contents.

  method DefaultReferences(configMapRef: Reference?, secretRef: Reference?, namespace: string,
                           ghost refs: set<Reference>, ghost comps: set<ComponentReference>, ghost base: Option<string>)
    requires Refs(configMapRef, secretRef) <= refs
    modifies Refs(configMapRef, secretRef)`namespace
    ensures
      Handled(old(StoreOf(refs, comps)), StoreOf(refs, comps), Refs(configMapRef, secretRef), {}, namespace, base)
  {
    DefaultNamespace(configMapRef, namespace);
    DefaultNamespace(secretRef, namespace);
  }

  /** The three steps that a descriptor import and an element of a descriptor list have in common. */
  method DefaultPointers(configMapRef: Reference?, secretRef: Reference?, ref: ComponentReference?, namespace: string,
                         specReference: ComponentReference?, ghost refs: set<Reference>,
                         ghost comps: set<ComponentReference>)
    requires Refs(configMapRef, secretRef) <= refs && Comps(ref) <= comps
    modifies Refs(configMapRef, secretRef)`namespace, Comps(ref)`repositoryContext
    ensures Handled(old(StoreOf(refs, comps)), StoreOf(refs, comps), Refs(configMapRef, secretRef), Comps(ref),
                    namespace, old(BaseContextOf(specReference)))
    ensures BaseContextOf(specReference) == old(BaseContextOf(specReference))
  {
    DefaultReferences(configMapRef, secretRef, namespace, refs, comps, BaseContextOf(specReference));
    DefaultRepositoryContext(ref, specReference);
  }

  lemma DataReferencesStep(data: seq<DataImportStruct>, i: nat)
    requires i < |data|
    ensures DataReferences(data[..i + 1]) == DataReferences(data[..i]) + Refs(data[i].configMapRef, data[i].secretRef)
    ensures DataReferences(data[..i + 1]) <= DataReferences(data)
    decreases |data| - i
  {
    assert data[..i + 1][..i] == data[..i];
    if i + 1 < |data| {
      DataReferencesStep(data, i + 1);
    } else {
      assert data[..i + 1] == data;
    }
  }

  method DefaultDataImports(data: seq<DataImportStruct>, namespace: string,
                            ghost refs: set<Reference>, ghost comps: set<ComponentReference>,
                            ghost base: Option<string>)
    requires DataReferences(data) <= refs
    modifies DataReferences(data)`namespace
    ensures Handled(old(StoreOf(refs, comps)), StoreOf(refs, comps), DataReferences(data), {}, namespace, base)
  {
    ghost var before := StoreOf(refs, comps);
    for i := 0 to |data|
      invariant Handled(before, StoreOf(refs, comps), DataReferences(data[..i]), {}, namespace, base)
    {
      ghost var now := StoreOf(refs, comps);
      DataReferencesStep(data, i);
      DefaultReferences(data[i].configMapRef, data[i].secretRef, namespace, refs, comps, base);
      HandledThen(before, now, StoreOf(refs, comps), DataReferences(data[..i]), {},
                  Refs(data[i].configMapRef, data[i].secretRef), {}, namespace, base);
    }
    assert data[..|data|] == data;
  }

  lemma ListStep(list: seq<DescriptorDataStruct>, i: nat)
    requires i < |list|
    ensures ListReferences(list[..i + 1]) == ListReferences(list[..i]) + Refs(list[i].configMapRef, list[i].secretRef)
    ensures ListComponents(list[..i + 1]) == ListComponents(list[..i]) + Comps(list[i].ref)
    ensures ListReferences(list[..i + 1]) <= ListReferences(list)
    ensures ListComponents(list[..i + 1]) <= ListComponents(list)
    decreases |list| - i
  {
    assert list[..i + 1][..i] == list[..i];
    if i + 1 < |list| {
      ListStep(list, i + 1);
    } else {
      assert list[..i + 1] == list;
    }
  }

  method DefaultList(list: seq<DescriptorDataStruct>, namespace: string, specReference: ComponentReference?,
                     ghost refs: set<Reference>, ghost comps: set<ComponentReference>)
    requires ListReferences(list) <= refs && ListComponents(list) <= comps
    modifies ListReferences(list)`namespace, ListComponents(list)`repositoryContext
    ensures Handled(old(StoreOf(refs, comps)), StoreOf(refs, comps), ListReferences(list), ListComponents(list),
                    namespace, old(BaseContextOf(specReference)))
    ensures BaseContextOf(specReference) == old(BaseContextOf(specReference))
  {
    ghost var base, before := BaseContextOf(specReference), StoreOf(refs, comps);
    for i := 0 to |list|
      invariant Handled(before, StoreOf(refs, comps), ListReferences(list[..i]), ListComponents(list[..i]),
                        namespace, base)
      invariant BaseContextOf(specReference) == base
    {
      var e := list[i];
      ghost var now := StoreOf(refs, comps);
      ListStep(list, i);
      DefaultPointers(e.configMapRef, e.secretRef, e.ref, namespace, specReference, refs, comps);
      HandledThen(before, now, StoreOf(refs, comps), ListReferences(list[..i]), ListComponents(list[..i]),
                  Refs(e.configMapRef, e.secretRef), Comps(e.ref), namespace, base);
    }
    assert list[..|list|] == list;
  }

  method DefaultDescriptorImport(imp: DescriptorImportStruct, namespace: string, specReference: ComponentReference?,
                                 ghost refs: set<Reference>, ghost comps: set<ComponentReference>)
    requires ImportReferences(imp) <= refs && ImportComponents(imp) <= comps
    modifies ImportReferences(imp)`namespace, ImportComponents(imp)`repositoryContext
    ensures Handled(old(StoreOf(refs, comps)), StoreOf(refs, comps), ImportReferences(imp), ImportComponents(imp),
                    namespace, old(BaseContextOf(specReference)))
    ensures BaseContextOf(specReference) == old(BaseContextOf(specReference))
  {
    ghost var base, before := BaseContextOf(specReference), StoreOf(refs, comps);
    DefaultPointers(imp.configMapRef, imp.secretRef, imp.ref, namespace, specReference, refs, comps);
    ghost var now := StoreOf(refs, comps);
    DefaultList(ElementsOf(imp), namespace, specReference, refs, comps);
    HandledThen(before, now, StoreOf(refs, comps), Refs(imp.configMapRef, imp.secretRef), Comps(imp.ref),
                ListReferences(ElementsOf(imp)), ListComponents(ElementsOf(imp)), namespace, base);
  }

  lemma DescriptorStep(imports: seq<DescriptorImportStruct>, i: nat)
    requires i < |imports|
    ensures DescriptorReferences(imports[..i + 1]) == DescriptorReferences(imports[..i]) + ImportReferences(imports[i])
    ensures DescriptorComponents(imports[..i + 1]) == DescriptorComponents(imports[..i]) + ImportComponents(imports[i])
    ensures DescriptorReferences(imports[..i + 1]) <= DescriptorReferences(imports)
    ensures DescriptorComponents(imports[..i + 1]) <= DescriptorComponents(imports)
    decreases |imports| - i
  {
    assert imports[..i + 1][..i] == imports[..i];
    if i + 1 < |imports| {
      DescriptorStep(imports, i + 1);
    } else {
      assert imports[..i + 1] == imports;
    }
  }

  method DefaultDescriptorImports(imports: seq<DescriptorImportStruct>, namespace: string,
                                  specReference: ComponentReference?, ghost refs: set<Reference>,
                                  ghost comps: set<ComponentReference>)
    requires DescriptorReferences(imports) <= refs && DescriptorComponents(imports) <= comps
    modifies DescriptorReferences(imports)`namespace, DescriptorComponents(imports)`repositoryContext
    ensures Handled(old(StoreOf(refs, comps)), StoreOf(refs, comps), DescriptorReferences(imports),
                    DescriptorComponents(imports), namespace, old(BaseContextOf(specReference)))
    ensures BaseContextOf(specReference) == old(BaseContextOf(specReference))
  {
    ghost var base, before := BaseContextOf(specReference), StoreOf(refs, comps);
    for i := 0 to |imports|
      invariant Handled(before, StoreOf(refs, comps), DescriptorReferences(imports[..i]),
                        DescriptorComponents(imports[..i]), namespace, base)
      invariant BaseContextOf(specReference) == base
    {
      ghost var now := StoreOf(refs, comps);
      DescriptorStep(imports, i);
      DefaultDescriptorImport(imports[i], namespace, specReference, refs, comps);
      HandledThen(before, now, StoreOf(refs, comps), DescriptorReferences(imports[..i]),
                  DescriptorComponents(imports[..i]), ImportReferences(imports[i]), ImportComponents(imports[i]),
                  namespace, base);
    }
    assert imports[..|imports|] == imports;
  }

  // ---------- What that means for the values ----------

  ghost function DefaultedStore(store: Store, namespace: string, base: Option<string>): Store {
    Store(map r | r in store.refs ::
            store.refs[r].(namespace := DefaultedNamespace(store.refs[r].namespace, namespace)),
          map c | c in store.comps ::
            store.comps[c].(repositoryContext := DefaultedContext(store.comps[c].repositoryContext, base)))
  }

  lemma DescriptorValueDefaulted(imp: DescriptorImportStruct, store: Store, namespace: string, base: Option<string>)
    ensures DescriptorValue(imp, DefaultedStore(store, namespace, base)) ==
      DefaultedDescriptor(DescriptorValue(imp, store), namespace, base)
  {
    var list := ElementsOf(imp);
    assert ListValue(list, DefaultedStore(store, namespace, base)) ==
      DefaultedList(ListValue(list, store), namespace, base);
  }

  /** Defaulting what the pointers lead to defaults the imports, however the pointers are shared. */
  lemma ImportsValueDefaulted(data: seq<DataImportStruct>, targets: seq<TargetImport>,
                              descriptors: seq<DescriptorImportStruct>,
                              store: Store, namespace: string, base: Option<string>)
    ensures ImportsValue(data, targets, descriptors, DefaultedStore(store, namespace, base)) ==
      DefaultedImports(ImportsValue(data, targets, descriptors, store), namespace, base)
  {
    var before := ImportsValue(data, targets, descriptors, store);
    var after := ImportsValue(data, targets, descriptors, DefaultedStore(store, namespace, base));
    assert after.data == DefaultedDatas(before.data, namespace);
    forall i | 0 <= i < |descriptors|
      ensures after.componentDescriptors[i] == DefaultedDescriptor(before.componentDescriptors[i], namespace, base)
    {
      DescriptorValueDefaulted(descriptors[i], store, namespace, base);
    }
    assert after.componentDescriptors == DefaultedDescriptors(before.componentDescriptors, namespace, base);
  }

  /** The loops over the two import lists. */
  method DefaultImportLists(obj: Installation)
    modifies obj.References()`namespace, obj.ComponentReferences()`repositoryContext
    ensures NamespacesDefaulted(obj.References(), obj.namespace)
    ensures ContextsDefaulted(obj.ComponentReferences(), old(obj.BaseContext()))
    ensures obj.BaseContext() == old(obj.BaseContext())
  {
    ghost var refs, comps, base := obj.References(), obj.ComponentReferences(), obj.BaseContext();
    ghost var before := StoreOf(refs, comps);
    DefaultDataImports(obj.data, obj.namespace, refs, comps, base);
    ghost var now := StoreOf(refs, comps);
    DefaultDescriptorImports(obj.componentDescriptors, obj.namespace, obj.specReference, refs, comps);
    HandledThen(before, now, StoreOf(refs, comps), DataReferences(obj.data), {},
                DescriptorReferences(obj.componentDescriptors), DescriptorComponents(obj.componentDescriptors),
                obj.namespace, base);
  }

  /** The same pointers, with everything they lead to defaulted. */
  ghost predicate IsDefaulted(store: Store, namespace: string, base: Option<string>)
    reads store.refs.Keys, store.comps.Keys
  {
    && (forall r :: r in store.refs ==>
          r.name == store.refs[r].name && r.namespace == DefaultedNamespace(store.refs[r].namespace, namespace))
    && (forall c :: c in store.comps ==>
          && c.componentName == store.comps[c].componentName && c.version == store.comps[c].version
          && c.repositoryContext == DefaultedContext(store.comps[c].repositoryContext, base))
  }

  lemma DefaultedStoreOf(store: Store, namespace: string, base: Option<string>)
    requires IsDefaulted(store, namespace, base)
    ensures StoreOf(store.refs.Keys, store.comps.Keys) == DefaultedStore(store, namespace, base)
  {
    var after, expected := StoreOf(store.refs.Keys, store.comps.Keys), DefaultedStore(store, namespace, base);
    assert after.refs == expected.refs;
    assert after.comps == expected.comps;
  }

  lemma ValueDefaulted(obj: Installation, store: Store, base: Option<string>)
    requires store.refs.Keys == obj.References() && store.comps.Keys == obj.ComponentReferences()
    requires IsDefaulted(store, obj.namespace, base)
    ensures obj.Value() ==
      DefaultedImports(ImportsValue(obj.data, obj.targets, obj.componentDescriptors, store), obj.namespace, base)
  {
    DefaultedStoreOf(store, obj.namespace, base);
    ImportsValueDefaulted(obj.data, obj.targets, obj.componentDescriptors, store, obj.namespace, base);
  }

  method DefaultImports(obj: Installation)
    modifies obj.References()`namespace, obj.ComponentReferences()`repositoryContext
    ensures obj.BaseContext() == old(obj.BaseContext())
    ensures NamespacesDefaulted(obj.References(), obj.namespace)
    ensures ContextsDefaulted(obj.ComponentReferences(), old(obj.BaseContext()))
    ensures obj.Value() == DefaultedImports(old(obj.Value()), obj.namespace, old(obj.BaseContext()))
  {
    ghost var base, store := obj.BaseContext(), StoreOf(obj.References(), obj.ComponentReferences());
    assert store.refs.Keys == obj.References() && store.comps.Keys == obj.ComponentReferences();
    DefaultImportLists(obj);
    ValueDefaulted(obj, store, base);
  }

  method SetDefaultsInstallation(obj: Installation)
    modifies obj`context, obj.References()`namespace, obj.ComponentReferences()`repositoryContext
    ensures obj.context == if old(obj.context) == "" then "default" else old(obj.context)
    ensures obj.BaseContext() == old(obj.BaseContext())
    ensures NamespacesDefaulted(obj.References(), obj.namespace)
    ensures ContextsDefaulted(obj.ComponentReferences(), old(obj.BaseContext()))
    ensures old(obj.BaseContext()) ==
      old(if obj.specReference == null then None else obj.specReference.repositoryContext)
    ensures obj.Value() == DefaultedImports(old(obj.Value()), obj.namespace, old(obj.BaseContext()))
  {
    if |obj.context| == 0 {
      obj.context := DEFAULT_CONTEXT_NAME;
    }
    DefaultImports(obj);
  }

  /** Nothing the imports point to is missing from what is reachable. */
  lemma EverythingReached(obj: Installation)
    ensures forall i :: 0 <= i < |obj.data| ==>
      Refs(obj.data[i].configMapRef, obj.data[i].secretRef) <= obj.References()
    ensures forall i :: 0 <= i < |obj.componentDescriptors| ==>
      && ImportReferences(obj.componentDescriptors[i]) <= obj.References()
      && ImportComponents(obj.componentDescriptors[i]) <= obj.ComponentReferences()
    ensures forall i, k :: 0 <= i < |obj.componentDescriptors| && 0 <= k < |ElementsOf(obj.componentDescriptors[i])| ==>
      var e := ElementsOf(obj.componentDescriptors[i])[k];
      Refs(e.configMapRef, e.secretRef) <= obj.References() && Comps(e.ref) <= obj.ComponentReferences()
  {
    forall i | 0 <= i < |obj.data| ensures Refs(obj.data[i].configMapRef, obj.data[i].secretRef) <= obj.References() {
      DataReferencesStep(obj.data, i);
    }
    forall i | 0 <= i < |obj.componentDescriptors|
      ensures ImportReferences(obj.componentDescriptors[i]) <= obj.References()
      ensures ImportComponents(obj.componentDescriptors[i]) <= obj.ComponentReferences()
    {
      DescriptorStep(obj.componentDescriptors, i);
    }
    forall i, k | 0 <= i < |obj.componentDescriptors| && 0 <= k < |ElementsOf(obj.componentDescriptors[i])|
      ensures var e := ElementsOf(obj.componentDescriptors[i])[k];
        Refs(e.configMapRef, e.secretRef) <= obj.References() && Comps(e.ref) <= obj.ComponentReferences()
    {
      ListStep(ElementsOf(obj.componentDescriptors[i]), k);
      assert ImportReferences(obj.componentDescriptors[i]) <= obj.References();
    }
  }
}
