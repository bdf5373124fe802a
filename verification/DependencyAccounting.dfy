/**
 What the deploy item check looks at and how often: every `dependsOn` entry once, every undefined
 reference once, and no cycle twice.
 */
module DependencyAccounting {
  import opened Basics
  import opened DependencyGraph
  import opened DependencySearch

  /** The entries of one `dependsOn` list. */
  function Entries(source: string, deps: seq<string>): seq<Ref> {
    if deps == [] then [] else [Ref(source, deps[0])] + Entries(source, deps[1..])
  }

  /** The entries written under the given names, name by name. */
  function EntriesOf(list: seq<Item>, names: seq<string>): seq<Ref> {
    if names == [] then [] else Entries(names[0], Deps(list, names[0])) + EntriesOf(list, names[1..])
  }

  /** The entries of all items of the list. */
  function AllEntries(list: seq<Item>): seq<Ref> {
    if list == [] then []
    else AllEntries(list[..|list| - 1]) + Entries(list[|list| - 1].name, list[|list| - 1].dependsOn)
  }

  /** The reference itself, unless an item defines its target. */
  function Unmatched(list: seq<Item>, ref: Ref): seq<Ref> {
    if ref.target in Names(list) then [] else [ref]
  }

  function UndefinedOnly(list: seq<Item>, refs: seq<Ref>): seq<Ref> {
    if refs == [] then [] else Unmatched(list, refs[0]) + UndefinedOnly(list, refs[1..])
  }

  /** The dependency that leads from the last element of a cycle back to its first. */
  function Closing(c: Cycle): Ref
    requires c != []
  {
    Ref(c[|c| - 1], c[0])
  }

  function ClosingOf(c: Cycle): seq<Ref> {
    if c == [] then [] else [Closing(c)]
  }

  function Closings(cycles: seq<Cycle>): seq<Ref> {
    if cycles == [] then [] else ClosingOf(cycles[0]) + Closings(cycles[1..])
  }

  lemma {:induction false} ClosingsConcat(a: seq<Cycle>, b: seq<Cycle>)
    ensures Closings(a + b) == Closings(a) + Closings(b)
  {
    if a == [] {
      assert a + b == b;
    } else {
      ClosingsConcat(a[1..], b);
      assert (a + b)[0] == a[0] && (a + b)[1..] == a[1..] + b;
      Associative(ClosingOf(a[0]), Closings(a[1..]), Closings(b));
    }
  }

  lemma {:induction false} ClosingsAt(cycles: seq<Cycle>)
    requires forall k :: 0 <= k < |cycles| ==> cycles[k] != []
    ensures |Closings(cycles)| == |cycles|
    ensures forall k :: 0 <= k < |cycles| ==> Closings(cycles)[k] == Closing(cycles[k])
  {
    if cycles != [] {
      ClosingsAt(cycles[1..]);
      assert forall k :: 1 <= k < |cycles| ==> cycles[k] == cycles[1..][k - 1];
    }
  }

  lemma {:induction false} EntriesOfConcat(list: seq<Item>, a: seq<string>, b: seq<string>)
    ensures EntriesOf(list, a + b) == EntriesOf(list, a) + EntriesOf(list, b)
  {
    if a == [] {
      assert a + b == b;
    } else {
      EntriesOfConcat(list, a[1..], b);
      assert (a + b)[0] == a[0] && (a + b)[1..] == a[1..] + b;
      Associative(Entries(a[0], Deps(list, a[0])), EntriesOf(list, a[1..]), EntriesOf(list, b));
    }
  }

  lemma {:induction false} UndefinedOnlyConcat(list: seq<Item>, a: seq<Ref>, b: seq<Ref>)
    ensures UndefinedOnly(list, a + b) == UndefinedOnly(list, a) + UndefinedOnly(list, b)
  {
    if a == [] {
      assert a + b == b;
    } else {
      UndefinedOnlyConcat(list, a[1..], b);
      assert (a + b)[0] == a[0] && (a + b)[1..] == a[1..] + b;
      Associative(Unmatched(list, a[0]), UndefinedOnly(list, a[1..]), UndefinedOnly(list, b));
    }
  }

  // ---------- The account of one call ----------

  /**
   The entries `own`, still to be looked at by the caller's loop, and those of the finished names are examined,
   once each.
   */
  ghost predicate ExaminedOnce(list: seq<Item>, own: seq<Ref>, r: Outcome) {
    multiset(r.examined) == multiset(own) + multiset(EntriesOf(list, r.finished))
  }

  /** Undefined references and closed cycles come from different examined entries. */
  ghost predicate ReportedOnce(list: seq<Item>, r: Outcome) {
    && r.undefined == UndefinedOnly(list, r.examined)
    && multiset(Closings(r.cycles)) + multiset(r.undefined) <= multiset(r.examined)
  }

  ghost predicate Balanced(list: seq<Item>, own: seq<Ref>, r: Outcome) {
    ExaminedOnce(list, own, r) && ReportedOnce(list, r)
  }

  lemma SumsStayBelow<T>(c: multiset<T>, u: multiset<T>, e: multiset<T>, c': multiset<T>, u': multiset<T>,
                         e': multiset<T>)
    requires c + u <= e && c' + u' <= e'
    ensures (c + c') + (u + u') <= e + e'
  {
  }

  lemma ReportedOnceThen(list: seq<Item>, a: Outcome, b: Outcome)
    requires ReportedOnce(list, a) && ReportedOnce(list, b)
    ensures ReportedOnce(list, a.Then(b))
  {
    UndefinedOnlyConcat(list, a.examined, b.examined);
    ClosingsConcat(a.cycles, b.cycles);
    CountsOfConcat(a.examined, b.examined);
    CountsOfConcat(a.undefined, b.undefined);
    CountsOfConcat(Closings(a.cycles), Closings(b.cycles));
    SumsStayBelow(multiset(Closings(a.cycles)), multiset(a.undefined), multiset(a.examined),
                  multiset(Closings(b.cycles)), multiset(b.undefined), multiset(b.examined));
  }

  lemma BalancedThen(list: seq<Item>, own: seq<Ref>, more: seq<Ref>, a: Outcome, b: Outcome)
    requires Balanced(list, own, a) && Balanced(list, more, b)
    ensures Balanced(list, own + more, a.Then(b))
  {
    EntriesOfConcat(list, a.finished, b.finished);
    CountsOfConcat(a.examined, b.examined);
    CountsOfConcat(own, more);
    CountsOfConcat(EntriesOf(list, a.finished), EntriesOf(list, b.finished));
    ReportedOnceThen(list, a, b);
  }

  lemma FollowedBalanced(list: seq<Item>, ref: Ref, r: Outcome)
    requires ref.target in Names(list) && Balanced(list, [], r)
    ensures Balanced(list, [ref], r.(examined := [ref] + r.examined))
  {
    var examined := [ref] + r.examined;
    CountsOfConcat([ref], r.examined);
    UndefinedOnlyConcat(list, [ref], r.examined);
    assert UndefinedOnly(list, [ref]) == [];
    assert UndefinedOnly(list, examined) == UndefinedOnly(list, r.examined);
    assert multiset(r.examined) <= multiset(examined);
  }

  lemma {:induction false} SearchBalanced(list: seq<Item>, index: nat, path: seq<string>, done: set<string>)
    requires index < |list| && Reached(list, index, path, done)
    ensures Balanced(list, [], Search(list, index, path, done))
    decreases Names(list) - done, 0, 0
  {
    var item := list[index];
    var name := item.name;
    assert name in Names(list);
    if name !in done {
      assert EntriesOf(list, [name]) == Entries(name, item.dependsOn);
      if item.dependsOn != [] {
        ReachedToLooping(list, index, path, done);
        SearchAllBalanced(list, name, item.dependsOn, path + [name], done + {name});
        var r := SearchAll(list, name, item.dependsOn, path + [name], done + {name});
        EntriesOfConcat(list, r.finished, [name]);
      }
    }
  }

  lemma {:induction false} SearchAllBalanced(list: seq<Item>, source: string, deps: seq<string>, path: seq<string>,
                                             done: set<string>)
    requires Looping(list, source, deps, path, done)
    ensures Balanced(list, Entries(source, deps), SearchAll(list, source, deps, path, done))
    decreases Names(list) - done, 2, |deps|
  {
    if deps != [] {
      var here := SearchOne(list, source, deps[0], path, done);
      LoopingStep(list, source, deps, path, done);
      SearchOneBalanced(list, source, deps[0], path, done);
      SearchAllBalanced(list, source, deps[1..], path, here.done);
      BalancedThen(list, [Ref(source, deps[0])], Entries(source, deps[1..]), here,
                   SearchAll(list, source, deps[1..], path, here.done));
    }
  }

  lemma {:induction false} SearchOneBalanced(list: seq<Item>, source: string, dep: string, path: seq<string>,
                                             done: set<string>)
    requires Looping(list, source, [dep], path, done)
    ensures Balanced(list, [Ref(source, dep)], SearchOne(list, source, dep, path, done))
    decreases Names(list) - done, 1, 0
  {
    var ref := Ref(source, dep);
    FindNames(list, dep);
    assert EntriesOf(list, []) == [];
    if dep in path {
      TailIsCycle(list, source, dep, path, done);
      assert Closings([Tail(path, dep)]) == [ref] + Closings([]);
      assert UndefinedOnly(list, [ref]) == [];
    } else if Find(list, dep) < 0 {
      assert UndefinedOnly(list, [ref]) == [ref] + UndefinedOnly(list, []);
    } else {
      LoopingToReached(list, source, dep, path, done);
      SearchBalanced(list, Find(list, dep), path, done);
      FollowedBalanced(list, ref, Search(list, Find(list, dep), path, done));
    }
  }

  lemma {:induction false} SearchFromBalanced(list: seq<Item>, i: nat, done: set<string>)
    requires i <= |list| && Names(list[..i]) <= done
    ensures Balanced(list, [], SearchFrom(list, i, done))
    decreases |list| - i
  {
    if i < |list| {
      var here := Search(list, i, [], done);
      FirstIsReached(list, i, done);
      SearchBalanced(list, i, [], done);
      SearchCovers(list, i, [], done);
      NamesStep(list, i);
      SearchFromBalanced(list, i + 1, here.done);
      BalancedThen(list, [], [], here, SearchFrom(list, i + 1, here.done));
    }
  }

  // ---------- Theorems ----------

  /**
   Every entry written under a defined name is examined exactly once, and only those; undefined references are
   the examined entries without an item, in order.
   */
  lemma EveryEntryOnce(list: seq<Item>)
    ensures Distinct(Check(list).finished) && Elements(Check(list).finished) == Names(list)
    ensures multiset(Check(list).examined) == multiset(EntriesOf(list, Check(list).finished))
    ensures Check(list).undefined == UndefinedOnly(list, Check(list).examined)
  {
    assert Names(list[..0]) == {};
    SearchFromBalanced(list, 0, {});
    Coverage(list);
  }

  /** An earlier item has the name of item `i`, and is the one a lookup finds. */
  predicate Shadowed(list: seq<Item>, i: nat)
    requires i < |list|
  {
    list[i].name in Names(list[..i])
  }

  lemma ShadowedIff(list: seq<Item>, i: nat)
    requires i < |list|
    ensures Shadowed(list, i) <==> Find(list, list[i].name) != i
  {
    var f := Find(list, list[i].name);
    if f < i {
      assert list[..i][f].name == list[i].name;
    }
  }

  function FirstName(list: seq<Item>, i: nat): seq<string>
    requires i < |list|
  {
    if Shadowed(list, i) then [] else [list[i].name]
  }

  function FirstNames(list: seq<Item>, k: nat): seq<string>
    requires k <= |list|
  {
    if k == 0 then [] else FirstNames(list, k - 1) + FirstName(list, k - 1)
  }

  function ShadowedBy(list: seq<Item>, i: nat): seq<Ref>
    requires i < |list|
  {
    if Shadowed(list, i) then Entries(list[i].name, list[i].dependsOn) else []
  }

  function ShadowedEntries(list: seq<Item>, k: nat): seq<Ref>
    requires k <= |list|
  {
    if k == 0 then [] else ShadowedEntries(list, k - 1) + ShadowedBy(list, k - 1)
  }

  lemma FirstNameAt(list: seq<Item>, i: nat)
    requires i < |list|
    ensures Distinct(FirstName(list, i))
    ensures forall n :: n in FirstName(list, i) <==> n in Names(list) && Find(list, n) == i
  {
    ShadowedIff(list, i);
  }

  lemma {:induction false} FirstNamesDistinct(list: seq<Item>, k: nat)
    requires k <= |list|
    ensures Distinct(FirstNames(list, k))
    ensures forall n :: n in FirstNames(list, k) <==> n in Names(list) && Find(list, n) < k
  {
    if k == 0 {
      forall n | n in Names(list) ensures 0 <= Find(list, n) {
        FindNames(list, n);
      }
    } else {
      var i: nat := k - 1;
      FirstNamesDistinct(list, i);
      FirstNameAt(list, i);
      DistinctConcat(FirstNames(list, i), FirstName(list, i));
    }
  }

  lemma AllEntriesStep(list: seq<Item>, k: nat)
    requires k < |list|
    ensures AllEntries(list[..k + 1]) == AllEntries(list[..k]) + Entries(list[k].name, list[k].dependsOn)
  {
    assert list[..k + 1][..k] == list[..k];
  }

  /** Every element of `all` is in `a` or in `b`, as often. */
  ghost predicate Divided<T>(all: seq<T>, a: seq<T>, b: seq<T>) {
    multiset(all) == multiset(a) + multiset(b)
  }

  ghost predicate DividedUpTo(list: seq<Item>, k: nat)
    requires k <= |list|
  {
    Divided(AllEntries(list[..k]), EntriesOf(list, FirstNames(list, k)), ShadowedEntries(list, k))
  }

  lemma DividedTogether<T>(a: seq<T>, b: seq<T>, c: seq<T>, a': seq<T>, b': seq<T>, c': seq<T>)
    requires Divided(a, b, c) && Divided(a', b', c')
    ensures Divided(a + a', b + b', c + c')
  {
    CountsOfConcat(a, a');
    CountsOfConcat(b, b');
    CountsOfConcat(c, c');
  }

  lemma FirstOrShadowed(list: seq<Item>, i: nat)
    requires i < |list|
    ensures Divided(Entries(list[i].name, list[i].dependsOn), EntriesOf(list, FirstName(list, i)), ShadowedBy(list, i))
  {
    ShadowedIff(list, i);
    assert EntriesOf(list, []) == [];
    assert EntriesOf(list, [list[i].name]) == Entries(list[i].name, Deps(list, list[i].name)) + EntriesOf(list, []);
  }

  lemma EntriesDividedStep(list: seq<Item>, i: nat)
    requires i < |list| && DividedUpTo(list, i)
    ensures DividedUpTo(list, i + 1)
  {
    var names, first := FirstNames(list, i), FirstName(list, i);
    AllEntriesStep(list, i);
    EntriesOfConcat(list, names, first);
    FirstOrShadowed(list, i);
    DividedTogether(AllEntries(list[..i]), EntriesOf(list, names), ShadowedEntries(list, i),
                    Entries(list[i].name, list[i].dependsOn), EntriesOf(list, first), ShadowedBy(list, i));
    assert FirstNames(list, i + 1) == names + first;
  }

  lemma {:induction false} EntriesDivided(list: seq<Item>, k: nat)
    requires k <= |list|
    ensures DividedUpTo(list, k)
  {
    if k > 0 {
      var i: nat := k - 1;
      EntriesDivided(list, i);
      EntriesDividedStep(list, i);
    }
  }

  lemma {:induction false} EntriesOfPermutation(list: seq<Item>, a: seq<string>, b: seq<string>)
    requires SameCounts(a, b)
    ensures SameCounts(EntriesOf(list, a), EntriesOf(list, b))
  {
    if a == [] {
      assert |multiset(b)| == 0;
    } else {
      var front, back := CutOut(a, b);
      EntriesOfPermutation(list, a[1..], front + back);
      EntriesOfConcat(list, front, back);
      EntriesOfConcat(list, front, [a[0]] + back);
      EntriesOfConcat(list, [a[0]], back);
      assert a == [a[0]] + a[1..];
      EntriesOfConcat(list, [a[0]], a[1..]);
      MoveToFront(EntriesOf(list, [a[0]]), EntriesOf(list, a[1..]), EntriesOf(list, front), EntriesOf(list, back));
    }
  }

  lemma SameElementsSameCounts(a: seq<string>, b: seq<string>)
    requires Distinct(a) && Distinct(b) && Elements(a) == Elements(b)
    ensures SameCounts(a, b)
  {
    forall x ensures multiset(a)[x] == multiset(b)[x] {
      assert x in a <==> x in Elements(a);
      assert x in b <==> x in Elements(b);
      CountDistinct(a, x);
      CountDistinct(b, x);
    }
  }

  /**
   No entry is lost: all entries of all items are those that are examined, and those of items that are shadowed
   by an earlier one.
   */
  lemma EntriesExaminedOrShadowed(list: seq<Item>)
    ensures multiset(AllEntries(list)) == multiset(Check(list).examined) + multiset(ShadowedEntries(list, |list|))
  {
    var names := FirstNames(list, |list|);
    EveryEntryOnce(list);
    FirstNamesDistinct(list, |list|);
    assert forall n :: n in Elements(Check(list).finished) <==> n in names;
    SameElementsSameCounts(names, Check(list).finished);
    EntriesOfPermutation(list, names, Check(list).finished);
    EntriesDivided(list, |list|);
    assert list[..|list|] == list;
  }

  lemma ShadowedByEmpty(list: seq<Item>, i: nat)
    requires i < |list|
    ensures ShadowedBy(list, i) == [] <==> (Shadowed(list, i) ==> list[i].dependsOn == [])
  {
  }

  /** Among the first `k` items only the first with a name has dependencies. */
  predicate NothingShadowedBelow(list: seq<Item>, k: nat)
    requires k <= |list|
  {
    forall i :: 0 <= i < k && Shadowed(list, i) ==> list[i].dependsOn == []
  }

  predicate NothingShadowed(list: seq<Item>) {
    NothingShadowedBelow(list, |list|)
  }

  lemma NothingShadowedStep(list: seq<Item>, i: nat)
    requires i < |list|
    ensures NothingShadowedBelow(list, i + 1) <==>
      NothingShadowedBelow(list, i) && (Shadowed(list, i) ==> list[i].dependsOn == [])
  {
  }

  lemma {:induction false} ShadowedEntriesEmpty(list: seq<Item>, k: nat)
    requires k <= |list|
    ensures ShadowedEntries(list, k) == [] <==> NothingShadowedBelow(list, k)
  {
    if k > 0 {
      var i: nat := k - 1;
      ShadowedEntriesEmpty(list, i);
      BothEmpty(ShadowedEntries(list, i), ShadowedBy(list, i));
      ShadowedByEmpty(list, i);
      NothingShadowedStep(list, i);
    }
  }

  /** All entries of all items are examined exactly when nothing is shadowed; with distinct names, nothing is. */
  lemma EveryEntryOnceIff(list: seq<Item>)
    ensures SameCounts(Check(list).examined, AllEntries(list)) <==> NothingShadowed(list)
    ensures DistinctNames(list) ==> NothingShadowed(list)
  {
    EntriesExaminedOrShadowed(list);
    ShadowedEntriesEmpty(list, |list|);
    var shadowed := ShadowedEntries(list, |list|);
    if SameCounts(Check(list).examined, AllEntries(list)) {
      assert |multiset(AllEntries(list))| == |multiset(Check(list).examined)| + |multiset(shadowed)|;
      assert |shadowed| == |multiset(shadowed)| == 0;
    }
  }

  lemma CyclesNotEmpty(list: seq<Item>)
    ensures forall k :: 0 <= k < |Check(list).cycles| ==> Check(list).cycles[k] != []
  {
    Soundness(list);
    assert forall k :: 0 <= k < |Check(list).cycles| ==> SimpleCycle(list, Check(list).cycles[k]);
  }

  lemma SizesStayBelow<T>(a: seq<T>, b: seq<T>, c: seq<T>)
    requires multiset(a) + multiset(b) <= multiset(c)
    ensures |a| + |b| <= |c|
  {
    var both := multiset(a) + multiset(b);
    assert multiset(c) == both + (multiset(c) - both);
    assert |both| == |multiset(a)| + |multiset(b)|;
  }

  /**
   Cycles and undefined references come from different entries, so together there are no more of them than
   entries.
   */
  lemma ReportsBounded(list: seq<Item>)
    ensures |Check(list).cycles| + |Check(list).undefined| <= |AllEntries(list)|
  {
    assert Names(list[..0]) == {};
    SearchFromBalanced(list, 0, {});
    var r := Check(list);
    CyclesNotEmpty(list);
    ClosingsAt(r.cycles);
    EntriesExaminedOrShadowed(list);
    assert multiset(r.examined) <= multiset(AllEntries(list));
    SizesStayBelow(Closings(r.cycles), r.undefined, AllEntries(list));
  }

  /** Two items without a name are no duplicates for the validator, and the second is never looked at. */
  lemma ShadowedItemIsNotExamined()
    ensures var list := [Item("", "t", None, 0, []), Item("", "t", None, 0, ["ghost"])];
      Check(list).examined == [] && Check(list).undefined == [] && AllEntries(list) == [Ref("", "ghost")]
  {
    var list := [Item("", "t", None, 0, []), Item("", "t", None, 0, ["ghost"])];
    assert Search(list, 0, [], {}) == Nothing({""}).(finished := [""]);
    assert SearchFrom(list, 2, {""}) == Nothing({""});
    assert SearchFrom(list, 1, {""}) == Nothing({""});
    assert Entries("", ["ghost"]) == [Ref("", "ghost")];
    assert list[..1] == [Item("", "t", None, 0, [])];
    assert AllEntries(list[..1]) == [];
  }
}
