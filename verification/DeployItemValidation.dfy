/**
 The deploy item check as the validator performs it: one set of handled names that every recursive call
 updates, a path slice whose backing array sibling calls share and overwrite, and loops that append to
 the lists of findings.
 */
module DeployItemValidation {
  import opened Basics
  import opened Counting
  import opened StringSets
  import opened Slices
  import opened DependencyGraph
  import opened DependencySearch
  import opened DependencyAccounting

  method GetDeployItemTemplateByName(list: seq<Item>, name: string) returns (index: int)
    ensures index == Find(list, name)
  {
    index := -1;
    for i := 0 to |list|
      invariant index == -1
      invariant forall k :: 0 <= k < i ==> list[k].name != name
    {
      if list[i].name == name {
        index := i;
        return;
      }
    }
  }

  lemma LongerSlice(s: seq<string>, i: nat, j: nat)
    requires i <= j < |s|
    ensures s[i..j + 1] == s[i..j] + [s[j]]
  {
  }

  /** The copy lives in an array of its own, so no later append to the path can change it. */
  method GetCycle(visited: Slice, name: string) returns (cycle: Option<Slice>)
    requires visited.Valid()
    ensures cycle.Some? <==> name in visited.Contents()
    ensures cycle.Some? ==>
      cycle.value.Valid() && fresh(cycle.value.buf) && cycle.value.Contents() == Tail(visited.Contents(), name)
  {
    for i := 0 to visited.len
      invariant name !in visited.Contents()[..i]
    {
      if name == visited.buf[i] {
        var copy := Empty();
        for j := i to visited.len
          invariant copy.Valid() && fresh(copy.buf)
          invariant copy.Contents() == visited.Contents()[i..j]
        {
          LongerSlice(visited.Contents(), i, j);
          copy := Append(copy, visited.buf[j]);
        }
        ghost var k := TailIsSuffix(visited.Contents(), name);
        assert visited.Contents()[i..visited.len] == Tail(visited.Contents(), name);
        return Some(copy);
      }
    }
    cycle := None;
  }

  /**
   After `i` rounds of the loop: what is collected, followed by what the remaining rounds will find, is the
   whole result.
   */
  ghost predicate Collected(list: seq<Item>, current: Item, path: seq<string>, start: set<string>, i: nat,
                            cycles: seq<Cycle>, undefined: seq<Ref>, done: set<string>)
  {
    i <= |current.dependsOn| &&
    var all := SearchAll(list, current.name, current.dependsOn, path, start);
    var rest := SearchAll(list, current.name, current.dependsOn[i..], path, done);
    cycles + rest.cycles == all.cycles && undefined + rest.undefined == all.undefined && rest.done == all.done
  }

  lemma CollectedStep(list: seq<Item>, current: Item, path: seq<string>, start: set<string>, i: nat,
                      cycles: seq<Cycle>, undefined: seq<Ref>, done: set<string>)
    requires Collected(list, current, path, start, i, cycles, undefined, done) && i < |current.dependsOn|
    ensures var here := SearchOne(list, current.name, current.dependsOn[i], path, done);
      Collected(list, current, path, start, i + 1, cycles + here.cycles, undefined + here.undefined, here.done)
  {
    var here := SearchOne(list, current.name, current.dependsOn[i], path, done);
    assert current.dependsOn[i..][1..] == current.dependsOn[i + 1..];
    var rest := SearchAll(list, current.name, current.dependsOn[i + 1..], path, here.done);
    assert (cycles + here.cycles) + rest.cycles == cycles + (here.cycles + rest.cycles);
    assert (undefined + here.undefined) + rest.undefined == undefined + (here.undefined + rest.undefined);
  }

  method GetCyclesAndUndefinedDependencies(list: seq<Item>, index: nat, visited: Slice, done: StringSet)
    returns (cycles: seq<Slice>, undefined: seq<Ref>, newDone: StringSet)
    requires index < |list| && visited.Valid()
    modifies done, visited.buf
    ensures newDone == done
    ensures visited.Contents() == old(visited.Contents())
    ensures fresh(Buffers(cycles))
    ensures var r := Search(list, index, old(visited.Contents()), old(done.elems));
      Hold(cycles, r.cycles) && undefined == r.undefined && done.elems == r.done
    decreases Names(list) - done.elems, 0
  {
    var current := list[index];
    cycles, undefined, newDone := [], [], done;
    if done.Has(current.name) {
      return;
    }
    assert current.name in Names(list);
    done.Insert(current.name);
    if |current.dependsOn| == 0 {
      done.Insert(current.name);
      return;
    }
    ghost var path, start := visited.Contents() + [current.name], done.elems;
    ghost var found: seq<Cycle> := [];
    var visitedNew := Append(visited, current.name);
    for i := 0 to |current.dependsOn|
      invariant visitedNew.Valid() && visitedNew.Contents() == path
      invariant
        visitedNew.buf == visited.buf || (fresh(visitedNew.buf) && visited.Contents() == old(visited.Contents()))
      invariant fresh(Buffers(cycles)) && visitedNew.buf !in Buffers(cycles) && Hold(cycles, found)
      invariant start <= done.elems
      invariant Collected(list, current, path, start, i, found, undefined, done.elems)
    {
      CollectedStep(list, current, path, start, i, found, undefined, done.elems);
      ghost var here := SearchOne(list, current.name, current.dependsOn[i], path, done.elems);
      var resC, resU := FollowDependency(list, current.name, current.dependsOn[i], visitedNew, done);
      HoldConcat(cycles, resC, found, here.cycles);
      cycles, found := cycles + resC, found + here.cycles;
      undefined := undefined + resU;
    }
  }

  /** One round of the loop above. */
  method FollowDependency(list: seq<Item>, source: string, dep: string, visitedNew: Slice, done: StringSet)
    returns (cycles: seq<Slice>, undefined: seq<Ref>)
    requires visitedNew.Valid()
    modifies done, visitedNew.buf
    ensures visitedNew.Contents() == old(visitedNew.Contents())
    ensures fresh(Buffers(cycles))
    ensures var r := SearchOne(list, source, dep, old(visitedNew.Contents()), old(done.elems));
      Hold(cycles, r.cycles) && undefined == r.undefined && done.elems == r.done
    decreases Names(list) - done.elems, 1
  {
    var cycle := GetCycle(visitedNew, dep);
    if cycle.Some? {
      return [cycle.value], [];
    }
    var idx := GetDeployItemTemplateByName(list, dep);
    if idx < 0 {
      return [], [Ref(source, dep)];
    }
    var newDone;
    cycles, undefined, newDone := GetCyclesAndUndefinedDependencies(list, idx, visitedNew, done);
    var names := newDone.UnsortedList();
    done.InsertAll(names);
  }

  // ---------- The whole list ----------

  datatype ItemError =
    | DuplicateName(index: nat, name: string)
    | NameRequired(index: nat)
    | TypeRequired(index: nat)
    | TargetNameRequired(index: nat)
    | TargetNamespaceRequired(index: nat)
    | LabelInvalid(index: nat)
    | CycleFound(cycle: Cycle)
    | UndefinedDependency(position: int, ref: Ref)

  function TargetErrors(index: nat, target: Option<ObjectReference>): seq<ItemError> {
    if target.None? then []
    else
      (if target.value.name == "" then [TargetNameRequired(index)] else [])
      + (if target.value.namespace == "" then [TargetNamespaceRequired(index)] else [])
  }

  /** What is wrong with one item, whatever the others are. */
  function TemplateErrors(index: nat, item: Item): seq<ItemError> {
    (if item.name == "" then [NameRequired(index)] else [])
    + (if item.itemType == "" then [TypeRequired(index)] else [])
    + TargetErrors(index, item.target)
    + seq(item.labelErrors, _ => LabelInvalid(index))
  }

  /** The name of item `i` is not empty and was seen before. */
  predicate Repeats(list: seq<Item>, i: nat)
    requires i < |list|
  {
    list[i].name != "" && list[i].name in Names(list[..i])
  }

  predicate DuplicateUpTo(list: seq<Item>, n: nat)
    requires n <= |list|
  {
    exists i :: 0 <= i < n && Repeats(list, i)
  }

  predicate HasDuplicates(list: seq<Item>) {
    DuplicateUpTo(list, |list|)
  }

  function ErrorsAt(list: seq<Item>, i: nat): seq<ItemError>
    requires i < |list|
  {
    (if Repeats(list, i) then [DuplicateName(i, list[i].name)] else []) + TemplateErrors(i, list[i])
  }

  function ItemErrors(list: seq<Item>, n: nat): seq<ItemError>
    requires n <= |list|
  {
    if n == 0 then [] else ItemErrors(list, n - 1) + ErrorsAt(list, n - 1)
  }

  function CycleErrors(cycles: seq<Cycle>): seq<ItemError> {
    seq(|cycles|, i requires 0 <= i < |cycles| => CycleFound(cycles[i]))
  }

  function UndefinedErrors(list: seq<Item>, refs: seq<Ref>): seq<ItemError> {
    seq(|refs|, i requires 0 <= i < |refs| => UndefinedDependency(Find(list, refs[i].source), refs[i]))
  }

  function ListErrors(list: seq<Item>): seq<ItemError> {
    ItemErrors(list, |list|)
    + (if HasDuplicates(list) then []
       else CycleErrors(Check(list).cycles) + UndefinedErrors(list, Check(list).undefined))
  }

  method ValidateDeployItemTemplate(index: nat, item: Item) returns (errs: seq<ItemError>)
    ensures errs == TemplateErrors(index, item)
  {
    errs := [];
    if |item.name| == 0 {
      errs := errs + [NameRequired(index)];
    }
    if |item.itemType| == 0 {
      errs := errs + [TypeRequired(index)];
    }
    if item.target.Some? {
      errs := errs + TargetErrors(index, item.target);
    }
    errs := errs + seq(item.labelErrors, _ => LabelInvalid(index));
  }

  /** The names gathered before item `i`. */
  ghost predicate SeenBefore(list: seq<Item>, i: nat, names: set<string>) {
    i <= |list| && names == Names(list[..i]) - {""}
  }

  lemma SeenStep(list: seq<Item>, i: nat, names: set<string>)
    requires SeenBefore(list, i, names) && i < |list|
    ensures SeenBefore(list, i + 1, if list[i].name == "" then names else names + {list[i].name})
    ensures Repeats(list, i) <==> list[i].name != "" && list[i].name in names
  {
    NamesStep(list, i);
  }

  /** After `i` items: what is gathered, followed by what the remaining items will add, is the whole result. */
  ghost predicate Gathered(list: seq<Item>, i: nat, cycles: seq<Cycle>, undefined: seq<Ref>, done: set<string>) {
    i <= |list| &&
    var rest := SearchFrom(list, i, done);
    cycles + rest.cycles == Check(list).cycles && undefined + rest.undefined == Check(list).undefined
  }

  lemma GatheredStep(list: seq<Item>, i: nat, cycles: seq<Cycle>, undefined: seq<Ref>, done: set<string>)
    requires Gathered(list, i, cycles, undefined, done) && i < |list|
    ensures var here := Search(list, i, [], done);
      Gathered(list, i + 1, cycles + here.cycles, undefined + here.undefined, here.done)
  {
    var here := Search(list, i, [], done);
    var rest := SearchFrom(list, i + 1, here.done);
    assert (cycles + here.cycles) + rest.cycles == cycles + (here.cycles + rest.cycles);
    assert (undefined + here.undefined) + rest.undefined == undefined + (here.undefined + rest.undefined);
  }

  /** The loop over the items, with one set of handled names for all of them. */
  method SearchItems(list: seq<Item>) returns (cycles: seq<Slice>, undefined: seq<Ref>)
    ensures fresh(Buffers(cycles)) && Hold(cycles, Check(list).cycles)
    ensures undefined == Check(list).undefined
  {
    var done := new StringSet();
    cycles, undefined := [], [];
    ghost var found: seq<Cycle> := [];
    for i := 0 to |list|
      invariant fresh(done) && fresh(Buffers(cycles)) && Hold(cycles, found)
      invariant Gathered(list, i, found, undefined, done.elems)
    {
      GatheredStep(list, i, found, undefined, done.elems);
      ghost var here := Search(list, i, [], done.elems);
      var root := Empty();
      var c, u, d := GetCyclesAndUndefinedDependencies(list, i, root, done);
      HoldConcat(cycles, c, found, here.cycles);
      cycles, found := cycles + c, found + here.cycles;
      undefined := undefined + u;
      var names := d.UnsortedList();
      done.InsertAll(names);
      assert done.elems == here.done;
    }
  }

  method ReportFindings(list: seq<Item>, cycles: seq<Slice>, undefined: seq<Ref>) returns (errs: seq<ItemError>)
    requires forall i :: 0 <= i < |cycles| ==> cycles[i].Valid()
    ensures forall found :: Hold(cycles, found) ==> errs == CycleErrors(found) + UndefinedErrors(list, undefined)
  {
    errs := [];
    for i := 0 to |cycles|
      invariant |errs| == i
      invariant forall k :: 0 <= k < i ==> errs[k] == CycleFound(cycles[k].Contents())
    {
      errs := errs + [CycleFound(cycles[i].Contents())];
    }
    ghost var first := errs;
    for i := 0 to |undefined|
      invariant errs == first + UndefinedErrors(list, undefined)[..i]
    {
      var idx := GetDeployItemTemplateByName(list, undefined[i].source);
      errs := errs + [UndefinedDependency(idx, undefined[i])];
    }
    forall found | Hold(cycles, found) ensures first == CycleErrors(found) {
    }
  }

  method ValidateDeployItemTemplateList(list: seq<Item>) returns (errs: seq<ItemError>)
    ensures errs == ListErrors(list)
  {
    errs := [];
    var names := new StringSet();
    var hasDuplicates := false;
    for i := 0 to |list|
      invariant fresh(names) && SeenBefore(list, i, names.elems)
      invariant hasDuplicates == DuplicateUpTo(list, i)
      invariant errs == ItemErrors(list, i)
    {
      ghost var before := errs;
      SeenStep(list, i, names.elems);
      var dup: seq<ItemError> := [];
      if |list[i].name| != 0 {
        if names.Has(list[i].name) {
          dup := [DuplicateName(i, list[i].name)];
          hasDuplicates := true;
        }
        names.Insert(list[i].name);
      }
      var tmplErrs := ValidateDeployItemTemplate(i, list[i]);
      errs := errs + (dup + tmplErrs);
    }
    if !hasDuplicates {
      var cycles, undefined := SearchItems(list);
      var reported := ReportFindings(list, cycles, undefined);
      errs := errs + reported;
    }
  }

  // ---------- What acceptance means ----------

  predicate TemplateOk(item: Item) {
    && item.name != ""
    && item.itemType != ""
    && (item.target.Some? ==> item.target.value.name != "" && item.target.value.namespace != "")
    && item.labelErrors == 0
  }

  predicate AllDefined(list: seq<Item>) {
    forall i, d :: 0 <= i < |list| && d in list[i].dependsOn ==> d in Names(list)
  }

  lemma {:induction false} ItemErrorsEmpty(list: seq<Item>, n: nat)
    requires n <= |list|
    ensures ItemErrors(list, n) == [] <==> forall i :: 0 <= i < n ==> ErrorsAt(list, i) == []
  {
    if n > 0 {
      ItemErrorsEmpty(list, n - 1);
      BothEmpty(ItemErrors(list, n - 1), ErrorsAt(list, n - 1));
    }
  }

  lemma TemplateErrorsEmpty(index: nat, item: Item)
    ensures TemplateErrors(index, item) == [] <==> TemplateOk(item)
  {
    assert |seq(item.labelErrors, _ => LabelInvalid(index))| == item.labelErrors;
  }

  lemma ErrorsAtEmpty(list: seq<Item>, i: nat)
    requires i < |list|
    ensures ErrorsAt(list, i) == [] <==> TemplateOk(list[i]) && !Repeats(list, i)
  {
    TemplateErrorsEmpty(i, list[i]);
  }

  lemma NoRepeats(list: seq<Item>)
    requires DistinctNames(list)
    ensures !HasDuplicates(list)
  {
    forall i | 0 <= i < |list| ensures !Repeats(list, i) {
    }
  }

  lemma RepeatsIffNotDistinct(list: seq<Item>)
    requires forall i :: 0 <= i < |list| ==> list[i].name != "" && !Repeats(list, i)
    ensures DistinctNames(list)
  {
    forall i, j | 0 <= i < j < |list| ensures list[i].name != list[j].name {
      assert list[..j][i].name == list[i].name;
      assert !Repeats(list, j);
    }
  }

  lemma {:induction false} UndefinedOnlyEmpty(list: seq<Item>, refs: seq<Ref>)
    ensures UndefinedOnly(list, refs) == [] <==> forall ref :: ref in refs ==> ref.target in Names(list)
  {
    if refs != [] {
      UndefinedOnlyEmpty(list, refs[1..]);
      assert refs == [refs[0]] + refs[1..];
    }
  }

  lemma {:induction false} EntriesMembers(source: string, deps: seq<string>, ref: Ref)
    ensures ref in Entries(source, deps) <==> ref.source == source && ref.target in deps
  {
    if deps != [] {
      EntriesMembers(source, deps[1..], ref);
      assert deps == [deps[0]] + deps[1..];
    }
  }

  lemma {:induction false} AllEntriesMembers(list: seq<Item>, ref: Ref)
    ensures ref in AllEntries(list) <==>
      exists i :: 0 <= i < |list| && list[i].name == ref.source && ref.target in list[i].dependsOn
  {
    if list != [] {
      var front, last := list[..|list| - 1], list[|list| - 1];
      AllEntriesMembers(front, ref);
      EntriesMembers(last.name, last.dependsOn, ref);
      assert forall i :: 0 <= i < |front| ==> front[i] == list[i];
    }
  }

  lemma UndefinedIffNotAllDefined(list: seq<Item>)
    requires DistinctNames(list)
    ensures Check(list).undefined == [] <==> AllDefined(list)
  {
    EveryEntryOnce(list);
    EveryEntryOnceIff(list);
    UndefinedOnlyEmpty(list, Check(list).examined);
    forall ref ensures ref in Check(list).examined <==> ref in AllEntries(list) {
      assert ref in multiset(Check(list).examined) <==> ref in multiset(AllEntries(list));
    }
    forall i, d | 0 <= i < |list| && d in list[i].dependsOn ensures Ref(list[i].name, d) in AllEntries(list) {
      AllEntriesMembers(list, Ref(list[i].name, d));
    }
    forall ref | ref in AllEntries(list) ensures exists i :: 0 <= i < |list| && ref.target in list[i].dependsOn {
      AllEntriesMembers(list, ref);
    }
  }

  /**
   A list is accepted exactly when every item is in order by itself, the names differ, every dependency names
   an item, and a deployment order exists.
   */
  lemma AcceptedIff(list: seq<Item>)
    ensures ListErrors(list) == [] <==>
      && (forall i :: 0 <= i < |list| ==> TemplateOk(list[i]))
      && DistinctNames(list)
      && AllDefined(list)
      && (exists order :: DeploymentOrder(list, order))
  {
    ItemErrorsEmpty(list, |list|);
    forall i | 0 <= i < |list| ensures ErrorsAt(list, i) == [] <==> TemplateOk(list[i]) && !Repeats(list, i) {
      ErrorsAtEmpty(list, i);
    }
    CyclesReportedIffCyclic(list);
    if DistinctNames(list) {
      NoRepeats(list);
      UndefinedIffNotAllDefined(list);
    }
    if (forall i :: 0 <= i < |list| ==> TemplateOk(list[i]) && !Repeats(list, i)) {
      RepeatsIffNotDistinct(list);
    }
  }

  // ---------- What is reported ----------

  /** The position of the item an error is about, or -1 if it is about the list. */
  function ItemOf(e: ItemError): int {
    match e
    case DuplicateName(i, _) => i
    case NameRequired(i) => i
    case TypeRequired(i) => i
    case TargetNameRequired(i) => i
    case TargetNamespaceRequired(i) => i
    case LabelInvalid(i) => i
    case _ => -1
  }

  /** How often an error about item `i` is due. */
  ghost function DueAt(list: seq<Item>, i: nat, e: ItemError): nat
    requires i < |list|
  {
    var item := list[i];
    match e
    case DuplicateName(_, name) =>
      if name == item.name != "" && exists j :: 0 <= j < i && list[j].name == name then 1 else 0
    case NameRequired(_) => if item.name == "" then 1 else 0
    case TypeRequired(_) => if item.itemType == "" then 1 else 0
    case TargetNameRequired(_) => if item.target.Some? && item.target.value.name == "" then 1 else 0
    case TargetNamespaceRequired(_) => if item.target.Some? && item.target.value.namespace == "" then 1 else 0
    case LabelInvalid(_) => item.labelErrors
    case _ => 0
  }

  lemma RepeatsIff(list: seq<Item>, i: nat)
    requires i < |list|
    ensures Repeats(list, i) <==> list[i].name != "" && exists j :: 0 <= j < i && list[j].name == list[i].name
  {
    var front := list[..i];
    if Repeats(list, i) {
      var j :| 0 <= j < |front| && front[j].name == list[i].name;
      assert list[j].name == list[i].name;
    }
    if j :| 0 <= j < i && list[j].name == list[i].name {
      assert front[j].name == list[i].name;
    }
  }

  lemma {:induction false} LabelTimes(n: nat, i: nat, e: ItemError)
    ensures Times(seq(n, _ => LabelInvalid(i)), e) == if e == LabelInvalid(i) then n else 0
  {
    if n > 0 {
      LabelTimes(n - 1, i, e);
      assert seq(n, _ => LabelInvalid(i)) == seq(n - 1, _ => LabelInvalid(i)) + [LabelInvalid(i)];
      TimesConcat(seq(n - 1, _ => LabelInvalid(i)), [LabelInvalid(i)], e);
    }
  }

  lemma TargetTimes(i: nat, item: Item, e: ItemError)
    ensures Times(TargetErrors(i, item.target), e) ==
      (if e == TargetNameRequired(i) && item.target.Some? && item.target.value.name == "" then 1 else 0)
      + (if e == TargetNamespaceRequired(i) && item.target.Some? && item.target.value.namespace == "" then 1 else 0)
  {
  }

  /** How often an error about an item by itself is due. */
  function TemplateDue(i: nat, item: Item, e: ItemError): nat {
    match e
    case NameRequired(k) => if k == i && item.name == "" then 1 else 0
    case TypeRequired(k) => if k == i && item.itemType == "" then 1 else 0
    case TargetNameRequired(k) => if k == i && item.target.Some? && item.target.value.name == "" then 1 else 0
    case TargetNamespaceRequired(k) => if k == i && item.target.Some? && item.target.value.namespace == "" then 1 else 0
    case LabelInvalid(k) => if k == i then item.labelErrors else 0
    case _ => 0
  }

  lemma TemplateSum(i: nat, item: Item, e: ItemError)
    ensures Times(TemplateErrors(i, item), e) ==
      (if e == NameRequired(i) && item.name == "" then 1 else 0)
      + (if e == TypeRequired(i) && item.itemType == "" then 1 else 0)
      + Times(TargetErrors(i, item.target), e) + (if e == LabelInvalid(i) then item.labelErrors else 0)
  {
    var name: seq<ItemError> := if item.name == "" then [NameRequired(i)] else [];
    var typ: seq<ItemError> := if item.itemType == "" then [TypeRequired(i)] else [];
    var labels := seq(item.labelErrors, _ => LabelInvalid(i));
    TimesConcat(name, typ, e);
    TimesConcat(name + typ, TargetErrors(i, item.target), e);
    TimesConcat(name + typ + TargetErrors(i, item.target), labels, e);
    LabelTimes(item.labelErrors, i, e);
  }

  lemma TemplateCases(i: nat, item: Item, e: ItemError)
    ensures TemplateDue(i, item, e) ==
      (if e == NameRequired(i) && item.name == "" then 1 else 0)
      + (if e == TypeRequired(i) && item.itemType == "" then 1 else 0)
      + (if e == TargetNameRequired(i) && item.target.Some? && item.target.value.name == "" then 1 else 0)
      + (if e == TargetNamespaceRequired(i) && item.target.Some? && item.target.value.namespace == "" then 1 else 0)
      + (if e == LabelInvalid(i) then item.labelErrors else 0)
  {
  }

  lemma TemplateTimes(i: nat, item: Item, e: ItemError)
    ensures Times(TemplateErrors(i, item), e) == TemplateDue(i, item, e)
  {
    TemplateSum(i, item, e);
    TargetTimes(i, item, e);
    TemplateCases(i, item, e);
  }

  /** The errors of an item are of different kinds. */
  lemma DueCases(list: seq<Item>, i: nat, e: ItemError)
    requires i < |list|
    ensures (if ItemOf(e) == i then DueAt(list, i, e) else 0) ==
      (if Repeats(list, i) && e == DuplicateName(i, list[i].name) then 1 else 0) + TemplateDue(i, list[i], e)
  {
    RepeatsIff(list, i);
  }

  lemma ErrorsAtTimes(list: seq<Item>, i: nat, e: ItemError)
    requires i < |list|
    ensures Times(ErrorsAt(list, i), e) == if ItemOf(e) == i then DueAt(list, i, e) else 0
  {
    var duplicate: seq<ItemError> := if Repeats(list, i) then [DuplicateName(i, list[i].name)] else [];
    TimesConcat(duplicate, TemplateErrors(i, list[i]), e);
    TemplateTimes(i, list[i], e);
    DueCases(list, i, e);
  }

  /** How often an error is due about the first `n` items. */
  ghost function Due(list: seq<Item>, n: nat, e: ItemError): nat
    requires n <= |list|
  {
    if 0 <= ItemOf(e) < n then DueAt(list, ItemOf(e), e) else 0
  }

  lemma ItemErrorsStep(list: seq<Item>, i: nat, e: ItemError)
    requires i < |list|
    ensures Times(ItemErrors(list, i) + ErrorsAt(list, i), e) + Due(list, i, e) ==
      Times(ItemErrors(list, i), e) + Due(list, i + 1, e)
  {
    TimesConcat(ItemErrors(list, i), ErrorsAt(list, i), e);
    ErrorsAtTimes(list, i, e);
  }

  lemma {:induction false} ItemErrorsTimes(list: seq<Item>, n: nat, e: ItemError)
    requires n <= |list|
    ensures Times(ItemErrors(list, n), e) == Due(list, n, e)
  {
    if n > 0 {
      var i: nat := n - 1;
      ItemErrorsTimes(list, i, e);
      ItemErrorsStep(list, i, e);
    }
  }

  /** Every error about an item is reported as often as it is due, and no other. */
  lemma ItemErrorsDue(list: seq<Item>, e: ItemError)
    ensures Times(ItemErrors(list, |list|), e) == Due(list, |list|, e)
  {
    ItemErrorsTimes(list, |list|, e);
  }

  /** Two items have the same name, and have one. */
  ghost predicate NameTwice(list: seq<Item>) {
    exists i, j :: 0 <= i < j < |list| && list[i].name == list[j].name != ""
  }

  lemma DuplicatesIff(list: seq<Item>)
    ensures HasDuplicates(list) <==> NameTwice(list)
  {
    if HasDuplicates(list) {
      var j :| 0 <= j < |list| && Repeats(list, j);
      RepeatsIff(list, j);
    }
    if i, j :| 0 <= i < j < |list| && list[i].name == list[j].name != "" {
      RepeatsIff(list, j);
    }
  }

  lemma {:induction false} UndefinedMembers(list: seq<Item>, refs: seq<Ref>, ref: Ref)
    ensures ref in UndefinedOnly(list, refs) ==> ref in refs
  {
    if refs != [] {
      UndefinedMembers(list, refs[1..], ref);
    }
  }

  lemma {:induction false} SourceMembers(list: seq<Item>, names: seq<string>, ref: Ref)
    ensures ref in EntriesOf(list, names) ==> ref.source in names
  {
    if names != [] {
      SourceMembers(list, names[1..], ref);
      EntriesMembers(names[0], Deps(list, names[0]), ref);
    }
  }

  lemma UndefinedSource(list: seq<Item>, k: nat)
    requires k < |Check(list).undefined|
    ensures Check(list).undefined[k].source in Names(list)
  {
    var r := Check(list);
    var ref := r.undefined[k];
    EveryEntryOnce(list);
    UndefinedMembers(list, r.examined, ref);
    assert ref in multiset(r.examined);
    SourceMembers(list, r.finished, ref);
    assert ref.source in Elements(r.finished);
  }

  /** `p` is the position of the first item called `name`. */
  predicate FirstCalled(list: seq<Item>, p: int, name: string) {
    0 <= p < |list| && list[p].name == name && forall j :: 0 <= j < p ==> list[j].name != name
  }

  lemma ThreeParts<T>(a: seq<T>, b: seq<T>, c: seq<T>)
    ensures var s := a + (b + c);
      && |s| == |a| + |b| + |c| && s[..|a|] == a
      && (forall k :: 0 <= k < |b| ==> s[|a| + k] == b[k])
      && (forall k :: 0 <= k < |c| ==> s[|a| + |b| + k] == c[k])
  {
  }

  lemma FindingsSize(list: seq<Item>)
    requires !NameTwice(list)
    ensures |ListErrors(list)| == |ItemErrors(list, |list|)| + |Check(list).cycles| + |Check(list).undefined|
    ensures ListErrors(list)[..|ItemErrors(list, |list|)|] == ItemErrors(list, |list|)
  {
    DuplicatesIff(list);
    ThreeParts(ItemErrors(list, |list|), CycleErrors(Check(list).cycles), UndefinedErrors(list, Check(list).undefined));
  }

  lemma CycleReported(list: seq<Item>, k: nat)
    requires !NameTwice(list) && k < |Check(list).cycles|
    ensures |ItemErrors(list, |list|)| + k < |ListErrors(list)|
    ensures ListErrors(list)[|ItemErrors(list, |list|)| + k] == CycleFound(Check(list).cycles[k])
  {
    DuplicatesIff(list);
    var cycles := CycleErrors(Check(list).cycles);
    ThreeParts(ItemErrors(list, |list|), cycles, UndefinedErrors(list, Check(list).undefined));
    assert cycles[k] == CycleFound(Check(list).cycles[k]);
  }

  lemma UndefinedReported(list: seq<Item>, k: nat)
    requires !NameTwice(list) && k < |Check(list).undefined|
    ensures |ItemErrors(list, |list|)| + |Check(list).cycles| + k < |ListErrors(list)|
    ensures var e := ListErrors(list)[|ItemErrors(list, |list|)| + |Check(list).cycles| + k];
      e.UndefinedDependency? && e.ref == Check(list).undefined[k] && FirstCalled(list, e.position, e.ref.source)
  {
    DuplicatesIff(list);
    var ref := Check(list).undefined[k];
    var undefined := UndefinedErrors(list, Check(list).undefined);
    ThreeParts(ItemErrors(list, |list|), CycleErrors(Check(list).cycles), undefined);
    assert undefined[k] == UndefinedDependency(Find(list, ref.source), ref);
    UndefinedSource(list, k);
    FindNames(list, ref.source);
  }

  /**
   With two items of one name only the errors about items are reported.  Otherwise these are followed by one error
   for every cycle that is found, and one for every undefined reference, at the first item that makes it.
   */
  lemma FindingsReported(list: seq<Item>)
    ensures NameTwice(list) ==> ListErrors(list) == ItemErrors(list, |list|)
    ensures !NameTwice(list) ==>
      var errs, n, r := ListErrors(list), |ItemErrors(list, |list|)|, Check(list);
      && |errs| == n + |r.cycles| + |r.undefined|
      && errs[..n] == ItemErrors(list, |list|)
      && (forall k :: 0 <= k < |r.cycles| ==> errs[n + k] == CycleFound(r.cycles[k]))
      && (forall k :: 0 <= k < |r.undefined| ==>
            var e := errs[n + |r.cycles| + k];
            e.UndefinedDependency? && e.ref == r.undefined[k] && FirstCalled(list, e.position, e.ref.source))
  {
    DuplicatesIff(list);
    if !NameTwice(list) {
      FindingsSize(list);
      forall k | 0 <= k < |Check(list).cycles|
        ensures ListErrors(list)[|ItemErrors(list, |list|)| + k] == CycleFound(Check(list).cycles[k])
      {
        CycleReported(list, k);
      }
      forall k | 0 <= k < |Check(list).undefined|
        ensures var e := ListErrors(list)[|ItemErrors(list, |list|)| + |Check(list).cycles| + k];
          e.UndefinedDependency? && e.ref == Check(list).undefined[k] && FirstCalled(list, e.position, e.ref.source)
      {
        UndefinedReported(list, k);
      }
    }
  }
}
