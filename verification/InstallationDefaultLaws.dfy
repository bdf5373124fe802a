/** Defaulting of installations against their validation. */
module InstallationDefaultLaws {
  import opened Basics
  import opened ConfigChecks
  import opened NamedLists
  import opened InstallationImports
  import opened InstallationDefaults

  lemma DefaultedDescriptorTwice(imp: DescriptorImport, namespace: string, base: Option<string>)
    ensures DefaultedDescriptor(DefaultedDescriptor(imp, namespace, base), namespace, base) ==
      DefaultedDescriptor(imp, namespace, base)
  {
    if imp.list.Some? {
      var once := DefaultedList(imp.list.value, namespace, base);
      assert DefaultedList(once, namespace, base) == once;
    }
  }

  /** Defaulting twice is defaulting once. */
  lemma DefaultedTwice(imports: Imports, namespace: string, base: Option<string>)
    ensures DefaultedImports(DefaultedImports(imports, namespace, base), namespace, base) ==
      DefaultedImports(imports, namespace, base)
  {
    var once := DefaultedImports(imports, namespace, base);
    assert DefaultedDatas(once.data, namespace) == once.data;
    forall i | 0 <= i < |once.componentDescriptors|
      ensures DefaultedDescriptor(once.componentDescriptors[i], namespace, base) == once.componentDescriptors[i]
    {
      DefaultedDescriptorTwice(imports.componentDescriptors[i], namespace, base);
    }
    assert DefaultedDescriptors(once.componentDescriptors, namespace, base) == once.componentDescriptors;
  }

  // ---------- Which complaints go away ----------

  /** A reference without a namespace, in an import or in an element of its list. */
  predicate AboutNamespace(problem: Problem) {
    match problem
    case ReferenceNamespaceRequired(_) => true
    case InList(_, inner) => AboutNamespace(inner)
    case _ => false
  }

  /** The problem itself, unless it is about a namespace. */
  function Other(problem: Problem): seq<Problem> {
    if AboutNamespace(problem) then [] else [problem]
  }

  function Others(problems: seq<Problem>): seq<Problem> {
    if problems == [] then [] else Other(problems[0]) + Others(problems[1..])
  }

  function OtherIssue(issue: Issue): seq<Issue> {
    if AboutNamespace(issue.problem) then [] else [issue]
  }

  function OtherIssues(issues: seq<Issue>): seq<Issue> {
    if issues == [] then [] else OtherIssue(issues[0]) + OtherIssues(issues[1..])
  }

  lemma {:induction false} OthersConcat(a: seq<Problem>, b: seq<Problem>)
    ensures Others(a + b) == Others(a) + Others(b)
  {
    if a == [] {
      assert a + b == b;
    } else {
      OthersConcat(a[1..], b);
      assert (a + b)[0] == a[0] && (a + b)[1..] == a[1..] + b;
      Associative(Other(a[0]), Others(a[1..]), Others(b));
    }
  }

  lemma {:induction false} OtherIssuesConcat(a: seq<Issue>, b: seq<Issue>)
    ensures OtherIssues(a + b) == OtherIssues(a) + OtherIssues(b)
  {
    if a == [] {
      assert a + b == b;
    } else {
      OtherIssuesConcat(a[1..], b);
      assert (a + b)[0] == a[0] && (a + b)[1..] == a[1..] + b;
      Associative(OtherIssue(a[0]), OtherIssues(a[1..]), OtherIssues(b));
    }
  }

  lemma {:induction false} OtherIssuesOf(section: Section, index: nat, problems: seq<Problem>)
    ensures OtherIssues(Issues(section, index, problems)) == Issues(section, index, Others(problems))
  {
    if problems != [] {
      OtherIssuesOf(section, index, problems[1..]);
      assert Issues(section, index, problems)[1..] == Issues(section, index, problems[1..]);
      assert Issues(section, index, [problems[0]]) == [Issue(section, index, problems[0])];
      assert Issues(section, index, [problems[0]] + Others(problems[1..])) ==
        Issues(section, index, [problems[0]]) + Issues(section, index, Others(problems[1..]));
    }
  }

  lemma {:induction false} OthersInside(element: nat, problems: seq<Problem>)
    ensures Others(Inside(element, problems)) == Inside(element, Others(problems))
  {
    if problems != [] {
      OthersInside(element, problems[1..]);
      assert Inside(element, problems)[1..] == Inside(element, problems[1..]);
      assert Inside(element, [problems[0]]) == [InList(element, problems[0])];
      assert Inside(element, [problems[0]] + Others(problems[1..])) ==
        Inside(element, [problems[0]]) + Inside(element, Others(problems[1..]));
    }
  }

  lemma ReferenceDefaulted(or: Option<ObjectReference>, field: ReferenceField, namespace: string)
    requires namespace != ""
    ensures ReferenceProblems(DefaultedReference(or, namespace), field) == Others(ReferenceProblems(or, field))
  {
    if or.Some? {
      OthersConcat(When(or.value.name == "", ReferenceNameRequired(field)),
                   When(or.value.namespace == "", ReferenceNamespaceRequired(field)));
    }
  }

  lemma OthersOfFour(a: seq<Problem>, b: seq<Problem>, c: seq<Problem>, d: seq<Problem>)
    ensures Others(a + b + c + d) == Others(a) + Others(b) + Others(c) + Others(d)
  {
    OthersConcat(a, b);
    OthersConcat(a + b, c);
    OthersConcat(a + b + c, d);
  }

  lemma WhenStays(condition: bool, problem: Problem)
    requires !AboutNamespace(problem)
    ensures Others(When(condition, problem)) == When(condition, problem)
  {
  }

  lemma DataDefaulted(imp: DataImport, namespace: string)
    requires namespace != ""
    ensures DataProblems(DefaultedData(imp, namespace)) == Others(DataProblems(imp))
  {
    var source := OneSourceProblems(DataFields(imp), DATA_SOURCES);
    ReferenceDefaulted(imp.secretRef, SecretRef, namespace);
    ReferenceDefaulted(imp.configMapRef, ConfigMapRef, namespace);
    assert DataFields(DefaultedData(imp, namespace)) == DataFields(imp);
    OthersOfFour(source, ReferenceProblems(imp.secretRef, SecretRef), ReferenceProblems(imp.configMapRef, ConfigMapRef),
                 When(imp.name == "", NameRequired));
    WhenStays(OneOfVerdict(DataFields(imp), DATA_SOURCES) != ExactlyOne,
              NotExactlyOneSource(OneOfVerdict(DataFields(imp), DATA_SOURCES)));
    WhenStays(imp.name == "", NameRequired);
  }

  lemma ElementDefaulted(cd: DescriptorData, namespace: string, base: Option<string>)
    requires namespace != ""
    ensures ElementProblems(DefaultedElement(cd, namespace, base)) == Others(ElementProblems(cd))
  {
    var source := OneSourceProblems(DescriptorDataFields(cd), ELEMENT_SOURCES);
    ReferenceDefaulted(cd.secretRef, SecretRef, namespace);
    ReferenceDefaulted(cd.configMapRef, ConfigMapRef, namespace);
    assert DescriptorDataFields(DefaultedElement(cd, namespace, base)) == DescriptorDataFields(cd);
    OthersOfFour(source, ReferenceProblems(cd.configMapRef, ConfigMapRef), ReferenceProblems(cd.secretRef, SecretRef),
                 When(cd.dataRef != "", DataRefForbidden));
    WhenStays(OneOfVerdict(DescriptorDataFields(cd), ELEMENT_SOURCES) != ExactlyOne,
              NotExactlyOneSource(OneOfVerdict(DescriptorDataFields(cd), ELEMENT_SOURCES)));
    WhenStays(cd.dataRef != "", DataRefForbidden);
  }

  lemma InsideStep(before: seq<Problem>, before': seq<Problem>, k: nat, inner: seq<Problem>, inner': seq<Problem>)
    requires before' == Others(before) && inner' == Others(inner)
    ensures before' + Inside(k, inner') == Others(before + Inside(k, inner))
  {
    OthersInside(k, inner);
    OthersConcat(before, Inside(k, inner));
  }

  lemma {:induction false} NestedOthers(problems: seq<seq<Problem>>, problems': seq<seq<Problem>>, n: nat)
    requires |problems| == |problems'| && n <= |problems|
    requires forall k :: 0 <= k < |problems| ==> problems'[k] == Others(problems[k])
    ensures Nested(problems', n) == Others(Nested(problems, n))
  {
    if n > 0 {
      var i: nat := n - 1;
      NestedOthers(problems, problems', i);
      InsideStep(Nested(problems, i), Nested(problems', i), i, problems[i], problems'[i]);
    }
  }

  lemma ListDefaulted(list: seq<DescriptorData>, namespace: string, base: Option<string>)
    requires namespace != ""
    ensures ElementsProblems(DefaultedList(list, namespace, base)) == Others(ElementsProblems(list))
  {
    var list' := DefaultedList(list, namespace, base);
    forall k | 0 <= k < |list| ensures EachElement(list')[k] == Others(EachElement(list)[k]) {
      ElementDefaulted(list[k], namespace, base);
    }
    NestedOthers(EachElement(list), EachElement(list'), |list|);
  }

  lemma DescriptorDefaulted(imp: DescriptorImport, namespace: string, base: Option<string>)
    requires namespace != ""
    ensures DescriptorProblems(DefaultedDescriptor(imp, namespace, base)) == Others(DescriptorProblems(imp))
  {
    var name := When(imp.name == "", NameRequired);
    var source := OneSourceProblems(DescriptorFields(imp), DESCRIPTOR_SOURCES);
    var configMap := ReferenceProblems(imp.configMapRef, ConfigMapRef);
    var secret := ReferenceProblems(imp.secretRef, SecretRef);
    var dataRef := When(imp.dataRef != "", DataRefForbidden);
    var inside := if imp.list.Some? then ElementsProblems(imp.list.value) else [];
    ReferenceDefaulted(imp.secretRef, SecretRef, namespace);
    ReferenceDefaulted(imp.configMapRef, ConfigMapRef, namespace);
    assert DescriptorFields(DefaultedDescriptor(imp, namespace, base)) == DescriptorFields(imp);
    if imp.list.Some? {
      ListDefaulted(imp.list.value, namespace, base);
    }
    OthersOfFour(name, source, configMap, secret);
    OthersConcat(name + source + configMap + secret, dataRef);
    OthersConcat(name + source + configMap + secret + dataRef, inside);
    WhenStays(imp.name == "", NameRequired);
    WhenStays(OneOfVerdict(DescriptorFields(imp), DESCRIPTOR_SOURCES) != ExactlyOne,
              NotExactlyOneSource(OneOfVerdict(DescriptorFields(imp), DESCRIPTOR_SOURCES)));
    WhenStays(imp.dataRef != "", DataRefForbidden);
  }

  // ---------- The lists ----------

  /** The same entries, the complaints about namespaces left out. */
  ghost predicate WithOthers(entries: seq<Entry>, entries': seq<Entry>) {
    |entries'| == |entries| &&
    forall i :: 0 <= i < |entries| ==> entries'[i] == entries[i].(problems := Others(entries[i].problems))
  }

  lemma EntryOthers(section: Section, entries: seq<Entry>, entries': seq<Entry>, seen: set<string>, i: nat)
    requires WithOthers(entries, entries') && i < |entries|
    ensures ListIssues(section, entries', seen)[i] == OtherIssues(ListIssues(section, entries, seen)[i])
  {
    var before := SeenBefore(entries, i, seen);
    assert SeenBefore(entries', i, seen) == before;
    var duplicate := if entries[i].counted && entries[i].name in before then [DuplicateName] else [];
    assert Others(duplicate) == duplicate;
    OthersConcat(entries[i].problems, duplicate);
    OtherIssuesOf(section, i, EntryProblems(entries[i], before));
  }

  lemma {:induction false} ConcatOthers(parts: seq<seq<Issue>>, parts': seq<seq<Issue>>, n: nat)
    requires |parts| == |parts'| && n <= |parts|
    requires forall i :: 0 <= i < |parts| ==> parts'[i] == OtherIssues(parts[i])
    ensures ConcatAll(parts'[..n]) == OtherIssues(ConcatAll(parts[..n]))
  {
    if n > 0 {
      ConcatOthers(parts, parts', n - 1);
      ConcatAllStep(parts, n - 1);
      ConcatAllStep(parts', n - 1);
      OtherIssuesConcat(ConcatAll(parts[..n - 1]), parts[n - 1]);
    }
  }

  lemma ListOthers(section: Section, entries: seq<Entry>, entries': seq<Entry>, seen: set<string>)
    requires WithOthers(entries, entries')
    ensures ListCheck(section, entries', seen) == OtherIssues(ListCheck(section, entries, seen))
    ensures SeenAfter(entries', seen) == SeenAfter(entries, seen)
  {
    var parts, parts' := ListIssues(section, entries, seen), ListIssues(section, entries', seen);
    forall i | 0 <= i < |parts| ensures parts'[i] == OtherIssues(parts[i]) {
      EntryOthers(section, entries, entries', seen, i);
    }
    ConcatOthers(parts, parts', |parts|);
    assert parts[..|parts|] == parts && parts'[..|parts|] == parts';
  }

  lemma ThreeListsOthers(data: seq<Entry>, data': seq<Entry>, targets: seq<Entry>, descriptors: seq<Entry>,
                         descriptors': seq<Entry>)
    requires WithOthers(data, data') && WithOthers(targets, targets) && WithOthers(descriptors, descriptors')
    ensures ThreeLists(data', targets, descriptors') == OtherIssues(ThreeLists(data, targets, descriptors))
  {
    var afterData := SeenAfter(data, {});
    var afterTargets := SeenAfter(targets, afterData);
    ListOthers(DataImports, data, data', {});
    ListOthers(TargetImports, targets, targets, afterData);
    ListOthers(DescriptorImports, descriptors, descriptors', afterTargets);
    OtherIssuesConcat(ListCheck(DataImports, data, {}), ListCheck(TargetImports, targets, afterData));
    OtherIssuesConcat(ListCheck(DataImports, data, {}) + ListCheck(TargetImports, targets, afterData),
                      ListCheck(DescriptorImports, descriptors, afterTargets));
  }

  lemma OneMoreStays(before: seq<Problem>, condition: bool, problem: Problem)
    requires Others(before) == before && !AboutNamespace(problem)
    ensures Others(before + When(condition, problem)) == before + When(condition, problem)
  {
    OthersConcat(before, When(condition, problem));
    WhenStays(condition, problem);
  }

  lemma {:induction false} EmptyTargetsStay(targets: seq<string>, n: nat)
    requires n <= |targets|
    ensures Others(EmptyTargets(targets, n)) == EmptyTargets(targets, n)
  {
    if n > 0 {
      var i: nat := n - 1;
      EmptyTargetsStay(targets, i);
      OneMoreStays(EmptyTargets(targets, i), targets[i] == "", EmptyTarget(i));
    }
  }

  lemma TargetStays(imp: TargetImport)
    ensures Others(TargetProblems(imp)) == TargetProblems(imp)
  {
    var name, source := When(imp.name == "", NameRequired), OneSourceProblems(TargetFields(imp), TARGET_SOURCES);
    var empty := if imp.targets.Some? then EmptyTargets(imp.targets.value, |imp.targets.value|) else [];
    if imp.targets.Some? {
      EmptyTargetsStay(imp.targets.value, |imp.targets.value|);
    }
    OthersConcat(name, source);
    OthersConcat(name + source, empty);
    WhenStays(imp.name == "", NameRequired);
    WhenStays(OneOfVerdict(TargetFields(imp), TARGET_SOURCES) != ExactlyOne,
              NotExactlyOneSource(OneOfVerdict(TargetFields(imp), TARGET_SOURCES)));
  }

  /**
   With a namespace to default to, validation after defaulting reports exactly what it reported before, less
   the missing namespaces.
   */
  lemma DefaultingSettlesNamespaces(imports: Imports, namespace: string, base: Option<string>)
    requires namespace != ""
    ensures ImportIssues(DefaultedImports(imports, namespace, base)) == OtherIssues(ImportIssues(imports))
  {
    var defaulted := DefaultedImports(imports, namespace, base);
    var data, data' := DataEntries(imports.data), DataEntries(defaulted.data);
    var descriptors := DescriptorEntries(imports.componentDescriptors);
    var descriptors' := DescriptorEntries(defaulted.componentDescriptors);
    var targets := TargetEntries(imports.targets);
    forall i | 0 <= i < |data| ensures data'[i] == data[i].(problems := Others(data[i].problems)) {
      DataDefaulted(imports.data[i], namespace);
    }
    forall i | 0 <= i < |descriptors|
      ensures descriptors'[i] == descriptors[i].(problems := Others(descriptors[i].problems))
    {
      DescriptorDefaulted(imports.componentDescriptors[i], namespace, base);
    }
    forall i | 0 <= i < |targets| ensures targets[i] == targets[i].(problems := Others(targets[i].problems)) {
      TargetStays(imports.targets[i]);
    }
    ThreeListsOthers(data, data', targets, descriptors, descriptors');
  }

  /** Hence no complaint about a namespace is left. */
  lemma {:induction false} NoneAboutNamespaces(issues: seq<Issue>)
    ensures forall k :: 0 <= k < |OtherIssues(issues)| ==> !AboutNamespace(OtherIssues(issues)[k].problem)
  {
    if issues != [] {
      NoneAboutNamespaces(issues[1..]);
    }
  }
}
