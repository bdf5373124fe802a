/**
 When a cycle is reported twice, said by the graph: a repeated `dependsOn` entry matters exactly if it lies on a
 cycle, and then it depends on the order of the items whether the search meets it in a way that repeats the report.
 */
module DependencyArrangements {
  import opened Basics
  import opened DependencyGraph
  import opened DependencySearch
  import opened DependencyAccounting
  import opened DependencyRepetition

  // ---------- Repeated entries on a cycle ----------

  /** The name depends twice on `dep`, and `w` leads from `dep` back to the name. */
  ghost predicate RepeatOnCycle(list: seq<Item>, name: string, dep: string, w: seq<string>) {
    multiset(Deps(list, name))[dep] >= 2 && ClosedWalk(list, w) && w[0] == dep && w[|w| - 1] == name
  }

  ghost predicate NoRepeatOnCycle(list: seq<Item>) {
    forall name, dep, w :: !RepeatOnCycle(list, name, dep, w)
  }

  /** An entry that leads back lies on a cycle, namely the one it closes. */
  lemma LeadsBackOnCycle(list: seq<Item>, ref: Ref) returns (c: Cycle)
    requires ref in Check(list).examined && LeadsBack(list, Check(list).finished, ref)
    ensures ClosedWalk(list, c) && c[0] == ref.target && c[|c| - 1] == ref.source
  {
    var r := Check(list);
    BackwardCount(list, r.finished, r.examined, ref);
    ClosingEntries(list);
    var closings := Closings(r.cycles);
    assert ref in multiset(closings);
    var k := Position(closings, ref);
    CyclesNotEmpty(list);
    ClosingsAt(r.cycles);
    Soundness(list);
    c := r.cycles[k];
    assert SimpleCycle(list, c) && closings[k] == Closing(c);
  }

  lemma EntryExamined(list: seq<Item>, ref: Ref)
    requires ref.source in Names(list) && ref.target in Deps(list, ref.source)
    ensures ref in Check(list).examined
  {
    var r := Check(list);
    EveryEntryOnce(list);
    EntriesOfCount(list, r.finished, ref);
    assert ref.source in Elements(r.finished);
    assert multiset(Deps(list, ref.source))[ref.target] > 0;
    assert ref in multiset(r.examined);
  }

  /** If no repeated entry lies on a cycle, no cycle is reported twice. */
  lemma NoRepeatNoCycleTwice(list: seq<Item>)
    requires NoRepeatOnCycle(list)
    ensures NoCycleTwice(list)
  {
    var order := Check(list).finished;
    forall name, dep | name in Names(list) ensures !RepeatsBack(list, order, name, dep) {
      if RepeatsBack(list, order, name, dep) {
        var ref := Ref(name, dep);
        assert dep in multiset(Deps(list, name));
        EntryExamined(list, ref);
        var c := LeadsBackOnCycle(list, ref);
        assert RepeatOnCycle(list, name, dep, c);
      }
    }
    assert RepeatsHarmless(list);
    NoCycleTwiceIff(list);
  }

  // ---------- A repeated entry whose target is searched first ----------

  /** Every defined dependency of what a call finishes is handled when the call is over. */
  ghost predicate Closed(list: seq<Item>, r: Outcome) {
    forall x, y :: x in r.finished && Edge(list, x, y) ==> y in r.done
  }

  lemma {:induction false} SearchClosed(list: seq<Item>, index: nat, path: seq<string>, done: set<string>)
    requires index < |list| && Reached(list, index, path, done)
    ensures Closed(list, Search(list, index, path, done))
    decreases Names(list) - done, 0, 0
  {
    var item := list[index];
    var name := item.name;
    assert name in Names(list);
    if name !in done && item.dependsOn != [] {
      var longer, inner := path + [name], done + {name};
      var r := SearchAll(list, name, item.dependsOn, longer, inner);
      ReachedToLooping(list, index, path, done);
      SearchAllClosed(list, name, item.dependsOn, longer, inner);
      forall y | Edge(list, name, y) ensures y in r.done {
        if y in longer {
          assert y in Elements(longer);
        } else {
          SearchAllHandles(list, name, item.dependsOn, longer, inner, y);
        }
      }
    }
  }

  lemma {:induction false} SearchAllClosed(list: seq<Item>, source: string, deps: seq<string>, path: seq<string>,
                                           done: set<string>)
    requires Looping(list, source, deps, path, done)
    ensures Closed(list, SearchAll(list, source, deps, path, done))
    decreases Names(list) - done, 2, |deps|
  {
    if deps != [] {
      var here := SearchOne(list, source, deps[0], path, done);
      LoopingStep(list, source, deps, path, done);
      SearchOneClosed(list, source, deps[0], path, done);
      SearchAllClosed(list, source, deps[1..], path, here.done);
    }
  }

  lemma {:induction false} SearchOneClosed(list: seq<Item>, source: string, dep: string, path: seq<string>,
                                           done: set<string>)
    requires Looping(list, source, [dep], path, done)
    ensures Closed(list, SearchOne(list, source, dep, path, done))
    decreases Names(list) - done, 1, 0
  {
    if dep !in path && 0 <= Find(list, dep) {
      LoopingToReached(list, source, dep, path, done);
      SearchClosed(list, Find(list, dep), path, done);
    }
  }

  /** The first search finishes what can be reached from its item, and the item last. */
  lemma {:induction false} WalkFinished(list: seq<Item>, w: seq<string>, k: nat)
    requires list != [] && Walk(list, w) && k < |w| && w[0] == list[0].name
    ensures w[k] in Search(list, 0, [], {}).finished
  {
    var r := Search(list, 0, [], {});
    SearchCovers(list, 0, [], {});
    FirstIsReached(list, 0, {});
    SearchClosed(list, 0, [], {});
    assert r.done == Elements(r.finished);
    if k > 0 {
      var i: nat := k - 1;
      WalkFinished(list, w, i);
      assert Edge(list, w[i], w[i + 1]);
    }
    assert w[k] in Elements(r.finished);
  }

  lemma FirstFinishedLast(list: seq<Item>, name: string)
    requires list != [] && name in Search(list, 0, [], {}).finished
    ensures !Before(Check(list).finished, list[0].name, name)
  {
    var first := list[0].name;
    var here := Search(list, 0, [], {});
    var rest := SearchFrom(list, 1, here.done);
    var order := Check(list).finished;
    Coverage(list);
    SearchCovers(list, 0, [], {});
    assert order == here.finished + rest.finished;
    var last := |here.finished| - 1;
    assert here.finished[last] == first;
    var k := Position(here.finished, name);
    assert order[k] == name && order[last] == first;
    if k < last {
      assert Before(order, name, first);
    }
    NotBothBefore(order, first, name);
  }

  /** If the target of a repeated entry on a cycle is the first item, a cycle is reported twice. */
  lemma FirstRepeatsTwice(list: seq<Item>, name: string, dep: string, w: seq<string>)
    requires list != [] && list[0].name == dep && RepeatOnCycle(list, name, dep, w)
    ensures !NoCycleTwice(list)
  {
    WalkFinished(list, w, |w| - 1);
    FirstFinishedLast(list, name);
    assert name in Names(list) && dep in Names(list);
    assert RepeatsBack(list, Check(list).finished, name, dep);
    NoCycleTwiceIff(list);
  }

  // ---------- All orders of the items ----------

  /** The same items in another order, such that a lookup by name finds the same. */
  ghost predicate Arrangement(list: seq<Item>, other: seq<Item>) {
    SameCounts(list, other) && Names(list) == Names(other) && forall n :: Deps(list, n) == Deps(other, n)
  }

  lemma FindUnique(list: seq<Item>, k: nat)
    requires DistinctNames(list) && k < |list|
    ensures Find(list, list[k].name) == k
  {
  }

  lemma CountsNames(list: seq<Item>, other: seq<Item>)
    requires SameCounts(list, other)
    ensures Names(list) == Names(other)
  {
    forall item: Item ensures item in list <==> item in other {
      assert item in multiset(list) <==> item in multiset(other);
    }
    forall n | n in Names(list) ensures n in Names(other) {
      var i :| 0 <= i < |list| && list[i].name == n;
      assert list[i] in other;
    }
    forall n | n in Names(other) ensures n in Names(list) {
      var i :| 0 <= i < |other| && other[i].name == n;
      assert other[i] in list;
    }
  }

  /** With distinct names every order of the items is an arrangement. */
  lemma EveryOrderIsArrangement(list: seq<Item>, other: seq<Item>)
    requires DistinctNames(list) && SameCounts(list, other)
    ensures Arrangement(list, other)
  {
    CountsNames(list, other);
    forall n ensures Deps(list, n) == Deps(other, n) {
      FindNames(list, n);
      FindNames(other, n);
      if n in Names(list) {
        var item := other[Find(other, n)];
        assert item in multiset(other);
        assert item in multiset(list);
        var k := Position(list, item);
        FindUnique(list, k);
      }
    }
  }

  function MoveToFront(list: seq<Item>, k: nat): seq<Item>
    requires k < |list|
  {
    [list[k]] + (list[..k] + list[k + 1..])
  }

  /** The list with the item that a lookup of `name` finds moved to the front. */
  function MovedToFront(list: seq<Item>, name: string): seq<Item>
    requires name in Names(list)
  {
    FindNames(list, name);
    MoveToFront(list, Find(list, name))
  }

  predicate FirstAt(list: seq<Item>, name: string, k: nat) {
    k < |list| && list[k].name == name && forall i :: 0 <= i < k ==> list[i].name != name
  }

  /** The first item with a name is the one a lookup finds. */
  lemma FindIs(list: seq<Item>, name: string, k: nat)
    requires FirstAt(list, name, k)
    ensures Find(list, name) == k
  {
  }

  /** Moving the first item of its name to the front leaves every other name its first item. */
  lemma FirstMoved(list: seq<Item>, k: nat, name: string, i: nat) returns (f: nat)
    requires k < |list| && FirstAt(list, list[k].name, k) && FirstAt(list, name, i)
    ensures FirstAt(MoveToFront(list, k), name, f) && MoveToFront(list, k)[f] == list[i]
  {
    var moved := MoveToFront(list, k);
    assert moved[0] == list[k];
    assert forall j :: 0 <= j < k ==> moved[j + 1] == list[j];
    assert forall j :: k < j < |list| ==> moved[j] == list[j];
    f := if i == k then 0 else if i < k then i + 1 else i;
    forall j | 0 <= j < f ensures moved[j].name != name {
      if 0 < j <= k {
        assert moved[j] == list[j - 1];
      }
    }
  }

  /** Where a lookup finds the item after the move. */
  lemma MovedFind(list: seq<Item>, name: string, n: string) returns (f: nat)
    requires name in Names(list) && n in Names(list)
    ensures var moved := MovedToFront(list, name);
      f == Find(moved, n) && f < |moved| && moved[f] == list[Find(list, n)]
  {
    FindNames(list, name);
    FindNames(list, n);
    f := FirstMoved(list, Find(list, name), n, Find(list, n));
    FindIs(MovedToFront(list, name), n, f);
  }

  lemma MovedDeps(list: seq<Item>, name: string, n: string)
    requires name in Names(list) && Names(MovedToFront(list, name)) == Names(list)
    ensures Deps(MovedToFront(list, name), n) == Deps(list, n)
  {
    FindNames(list, n);
    FindNames(MovedToFront(list, name), n);
    if n in Names(list) {
      var f := MovedFind(list, name, n);
    }
  }

  lemma MovedIsArrangement(list: seq<Item>, name: string)
    requires name in Names(list)
    ensures Arrangement(list, MovedToFront(list, name)) && MovedToFront(list, name)[0].name == name
  {
    FindNames(list, name);
    var k := Find(list, name);
    assert list == list[..k] + ([list[k]] + list[k + 1..]);
    CountsOfConcat(list[..k], [list[k]] + list[k + 1..]);
    CountsOfConcat([list[k]], list[k + 1..]);
    CountsOfConcat(list[..k], list[k + 1..]);
    CountsOfConcat([list[k]], list[..k] + list[k + 1..]);
    CountsNames(list, MovedToFront(list, name));
    forall n ensures Deps(list, n) == Deps(MovedToFront(list, name), n) {
      MovedDeps(list, name, n);
    }
  }

  /** Closed walks and repeated entries are the same in every arrangement. */
  lemma ArrangementKeepsRepeats(list: seq<Item>, other: seq<Item>, name: string, dep: string, w: seq<string>)
    requires Arrangement(list, other)
    ensures RepeatOnCycle(list, name, dep, w) <==> RepeatOnCycle(other, name, dep, w)
  {
    assert forall x, y :: Edge(list, x, y) <==> Edge(other, x, y);
  }

  /** Whatever the order of the items: no cycle is reported twice exactly when no repeated entry lies on a cycle. */
  lemma NoArrangementTwiceIff(list: seq<Item>)
    ensures (forall other :: Arrangement(list, other) ==> NoCycleTwice(other)) <==> NoRepeatOnCycle(list)
  {
    if NoRepeatOnCycle(list) {
      forall other | Arrangement(list, other) ensures NoCycleTwice(other) {
        forall name, dep, w ensures !RepeatOnCycle(other, name, dep, w) {
          ArrangementKeepsRepeats(list, other, name, dep, w);
        }
        NoRepeatNoCycleTwice(other);
      }
    } else {
      var name, dep, w :| RepeatOnCycle(list, name, dep, w);
      var other := MovedToFront(list, dep);
      MovedIsArrangement(list, dep);
      ArrangementKeepsRepeats(list, other, name, dep, w);
      FirstRepeatsTwice(other, name, dep, w);
    }
  }

  // ---------- Inputs ----------

  /** An item that depends on itself twice reports its cycle twice. */
  lemma RepeatedCycle()
    ensures Check([Item("a", "t", None, 0, ["a", "a"])]).cycles == [["a"], ["a"]]
  {
    var list := [Item("a", "t", None, 0, ["a", "a"])];
    var deps := ["a", "a"];
    assert Tail(["a"], "a") == ["a"];
    assert deps[1..] == ["a"] && deps[1..][1..] == [];
    assert SearchAll(list, "a", [], ["a"], {"a"}).cycles == [];
    assert SearchAll(list, "a", ["a"], ["a"], {"a"}).cycles == [["a"]];
    assert SearchAll(list, "a", deps, ["a"], {"a"}).cycles == [["a"], ["a"]];
    assert [] + ["a"] == ["a"] && {} + {"a"} == {"a"};
    assert Search(list, 0, [], {}).cycles == [["a"], ["a"]];
    assert SearchFrom(list, 1, Search(list, 0, [], {}).done).cycles == [];
  }

  const A := Item("a", "t", None, 0, ["b", "b"])
  const B := Item("b", "t", None, 0, ["a"])

  /** Handled items add nothing. */
  lemma {:induction false} SearchFromHandled(list: seq<Item>, i: nat, done: set<string>)
    requires i <= |list| && Names(list) <= done
    ensures SearchFrom(list, i, done) == Nothing(done)
    decreases |list| - i
  {
    if i < |list| {
      assert list[i].name in Names(list);
      SearchFromHandled(list, i + 1, done);
    }
  }

  lemma FirstA()
    ensures Check([A, B]).cycles == [["a", "b"]]
  {
    var list := [A, B];
    var b, only, path, done := ["b", "b"], ["a"], ["a", "b"], {"a", "b"};
    assert Find(list, "a") == 0 && Find(list, "b") == 1;
    assert Tail(path, "a") == path;
    assert b[1..] == ["b"] && b[1..][1..] == [] && only[1..] == [];
    assert ["a"] + ["b"] == path && {"a"} + {"b"} == done && [] + ["a"] == ["a"] && {} + {"a"} == {"a"};
    assert SearchAll(list, "b", [], path, done) == Nothing(done);
    assert SearchOne(list, "b", "a", path, done).cycles == [path];
    assert SearchAll(list, "b", only, path, done).cycles ==
      [path] && SearchAll(list, "b", only, path, done).done == done;
    assert Search(list, 1, ["a"], {"a"}).cycles == [path] && Search(list, 1, ["a"], {"a"}).done == done;
    assert SearchAll(list, "a", [], ["a"], done).cycles == [];
    assert Search(list, 1, ["a"], done).cycles == [];
    assert SearchAll(list, "a", ["b"], ["a"], done).cycles == [];
    assert SearchAll(list, "a", b, ["a"], {"a"}).cycles == [path];
    assert Search(list, 0, [], {}).cycles == [path];
    SearchFromHandled(list, 1, Search(list, 0, [], {}).done);
  }

  lemma FirstB()
    ensures Check([B, A]).cycles == [["b", "a"], ["b", "a"]]
  {
    var list := [B, A];
    var b := ["b", "b"];
    assert Find(list, "b") == 0 && Find(list, "a") == 1;
    assert Tail(["b", "a"], "b") == ["b", "a"];
    assert b[1..] == ["b"] && b[1..][1..] == [];
    var path, done := ["b", "a"], {"b", "a"};
    assert SearchAll(list, "a", [], path, done).cycles == [];
    assert SearchAll(list, "a", ["b"], path, done).cycles == [["b", "a"]];
    assert SearchAll(list, "a", b, path, done).cycles == [["b", "a"], ["b", "a"]];
    assert ["b"] + ["a"] == path && {"b"} + {"a"} == done && [] + ["b"] == ["b"] && {} + {"b"} == {"b"};
    assert Search(list, 1, ["b"], {"b"}).cycles == [["b", "a"], ["b", "a"]];
    var inner := Search(list, 1, ["b"], {"b"}).done;
    var only := ["a"];
    assert only[1..] == [];
    assert SearchAll(list, "b", [], ["b"], inner).cycles == [];
    assert SearchAll(list, "b", ["a"], ["b"], {"b"}).cycles == [["b", "a"], ["b", "a"]];
    assert Search(list, 0, [], {}).cycles == [["b", "a"], ["b", "a"]];
    SearchFromHandled(list, 1, Search(list, 0, [], {}).done);
  }

  /** The order of the items decides: the same two items report their cycle once or twice. */
  lemma OrderMatters()
    ensures Check([A, B]).cycles == [["a", "b"]]
    ensures Check([B, A]).cycles == [["b", "a"], ["b", "a"]]
  {
    FirstA();
    FirstB();
  }
}
