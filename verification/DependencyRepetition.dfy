/**
 Which `dependsOn` entries close a reported cycle, and when a cycle is reported more than once.  The order in
 which the search finishes the names tells: an entry closes a cycle unless its target is finished first.
 */
module DependencyRepetition {
  import opened Basics
  import opened DependencyGraph
  import opened DependencySearch
  import opened DependencyAccounting

  // ---------- The order inside a cycle ----------

  function Reverse(s: seq<string>): seq<string> {
    if s == [] then [] else [s[|s| - 1]] + Reverse(s[..|s| - 1])
  }

  /** `x` comes before `y` in `order`. */
  ghost predicate Before(order: seq<string>, x: string, y: string) {
    exists i, j :: 0 <= i < j < |order| && order[i] == x && order[j] == y
  }

  /** Later elements of the cycle come earlier in `order`. */
  ghost predicate Descends(c: Cycle, order: seq<string>) {
    forall i, j :: 0 <= i < j < |c| ==> Before(order, c[j], c[i])
  }

  ghost predicate Descending(cycles: seq<Cycle>, order: seq<string>) {
    forall c :: c in cycles ==> Descends(c, order)
  }

  lemma BeforeInside(a: seq<string>, order: seq<string>, b: seq<string>, c: seq<string>, x: string, y: string)
    requires Before(order + c, x, y)
    ensures Before(a + order + b + c, x, y)
  {
    var s, t := order + c, a + order + b + c;
    var i, j :| 0 <= i < j < |s| && s[i] == x && s[j] == y;
    var i' := if i < |order| then |a| + i else |a| + |b| + i;
    var j' := if j < |order| then |a| + j else |a| + |b| + j;
    assert t[i'] == x && t[j'] == y;
  }

  lemma DescendingInside(cycles: seq<Cycle>, a: seq<string>, order: seq<string>, b: seq<string>, c: seq<string>)
    requires Descending(cycles, order + c)
    ensures Descending(cycles, a + order + b + c)
  {
    forall cycle | cycle in cycles ensures Descends(cycle, a + order + b + c) {
      assert Descends(cycle, order + c);
      forall i, j | 0 <= i < j < |cycle| ensures Before(a + order + b + c, cycle[j], cycle[i]) {
        BeforeInside(a, order, b, c, cycle[j], cycle[i]);
      }
    }
  }

  lemma {:induction false} ReverseAt(s: seq<string>, k: nat)
    requires k < |s|
    ensures |Reverse(s)| == |s| && Reverse(s)[|s| - 1 - k] == s[k]
  {
    if |s| > 1 {
      ReverseAt(s[..|s| - 1], if k < |s| - 1 then k else 0);
    }
  }

  lemma ReverseBefore(path: seq<string>, i: nat, j: nat)
    requires i < j < |path|
    ensures Before(Reverse(path), path[j], path[i])
  {
    ReverseAt(path, i);
    ReverseAt(path, j);
  }

  lemma TailDescends(path: seq<string>, dep: string)
    requires dep in path
    ensures Descends(Tail(path, dep), Reverse(path))
  {
    var k := TailIsSuffix(path, dep);
    var c := path[k..];
    forall i, j | 0 <= i < j < |c| ensures Before(Reverse(path), c[j], c[i]) {
      ReverseBefore(path, k + i, k + j);
    }
  }

  lemma DescendingThen(a: Outcome, b: Outcome, last: seq<string>)
    requires Descending(a.cycles, a.finished + last) && Descending(b.cycles, b.finished + last)
    ensures Descending(a.Then(b).cycles, a.Then(b).finished + last)
  {
    DescendingInside(a.cycles, [], a.finished, b.finished, last);
    DescendingInside(b.cycles, a.finished, b.finished, [], last);
    assert [] + a.finished + b.finished + last == a.Then(b).finished + last;
    assert a.finished + b.finished + [] + last == a.Then(b).finished + last;
  }

  lemma {:induction false} SearchDescends(list: seq<Item>, index: nat, path: seq<string>, done: set<string>)
    requires index < |list|
    ensures var r := Search(list, index, path, done); Descending(r.cycles, r.finished + Reverse(path))
    decreases Names(list) - done, 0, 0
  {
    var item := list[index];
    assert item.name in Names(list);
    if item.name !in done && item.dependsOn != [] {
      var longer, inner := path + [item.name], done + {item.name};
      SearchAllDescends(list, item.name, item.dependsOn, longer, inner);
      var r := SearchAll(list, item.name, item.dependsOn, longer, inner);
      assert longer[..|longer| - 1] == path;
      assert r.finished + Reverse(longer) == (r.finished + [item.name]) + Reverse(path);
    }
  }

  lemma {:induction false} SearchAllDescends(list: seq<Item>, source: string, deps: seq<string>, path: seq<string>,
                                             done: set<string>)
    ensures var r := SearchAll(list, source, deps, path, done); Descending(r.cycles, r.finished + Reverse(path))
    decreases Names(list) - done, 2, |deps|
  {
    if deps != [] {
      var here := SearchOne(list, source, deps[0], path, done);
      var rest := SearchAll(list, source, deps[1..], path, here.done);
      SearchOneDescends(list, source, deps[0], path, done);
      SearchAllDescends(list, source, deps[1..], path, here.done);
      DescendingThen(here, rest, Reverse(path));
    }
  }

  lemma {:induction false} SearchOneDescends(list: seq<Item>, source: string, dep: string, path: seq<string>,
                                             done: set<string>)
    ensures var r := SearchOne(list, source, dep, path, done); Descending(r.cycles, r.finished + Reverse(path))
    decreases Names(list) - done, 1, 0
  {
    if dep in path {
      TailDescends(path, dep);
      assert [] + Reverse(path) == Reverse(path);
    } else if 0 <= Find(list, dep) {
      SearchDescends(list, Find(list, dep), path, done);
    }
  }

  lemma {:induction false} SearchFromDescends(list: seq<Item>, i: nat, done: set<string>)
    requires i <= |list|
    ensures var r := SearchFrom(list, i, done); Descending(r.cycles, r.finished + [])
    decreases |list| - i
  {
    if i < |list| {
      var here := Search(list, i, [], done);
      SearchDescends(list, i, [], done);
      SearchFromDescends(list, i + 1, here.done);
      DescendingThen(here, SearchFrom(list, i + 1, here.done), []);
    }
  }

  // ---------- Entries that close a cycle ----------

  /** The elements of `s` come in `order` as they do in `s`. */
  ghost predicate Respects(order: seq<string>, s: seq<string>) {
    forall i, j :: 0 <= i < j < |s| ==> Before(order, s[i], s[j])
  }

  lemma RespectsWithout(order: seq<string>, a: seq<string>, b: seq<string>, c: seq<string>)
    requires Respects(order, a + b + c)
    ensures Respects(order, a + c)
  {
    var s, t := a + c, a + b + c;
    forall i, j | 0 <= i < j < |s| ensures Before(order, s[i], s[j]) {
      var i' := if i < |a| then i else |b| + i;
      var j' := if j < |a| then j else |b| + j;
      assert t[i'] == s[i] && t[j'] == s[j];
    }
  }

  lemma RespectsAcross(order: seq<string>, a: seq<string>, b: seq<string>, x: string, y: string)
    requires Respects(order, a + b) && x in a && y in b
    ensures Before(order, x, y)
  {
    var i := Position(a, x);
    var j := Position(b, y);
    assert (a + b)[i] == x && (a + b)[|a| + j] == y;
  }

  lemma {:induction false} ReverseElements(s: seq<string>)
    ensures Elements(Reverse(s)) == Elements(s) && (s != [] ==> Reverse(s)[0] == s[|s| - 1])
  {
    if s != [] {
      var front, last := s[..|s| - 1], s[|s| - 1];
      ReverseElements(front);
      assert s == front + [last];
      ElementsConcat(front, [last]);
      ElementsConcat([last], Reverse(front));
      assert Reverse(s) == [last] + Reverse(front);
    }
  }

  /** The target is defined and not finished before the source. */
  ghost predicate LeadsBack(list: seq<Item>, order: seq<string>, ref: Ref) {
    ref.target in Names(list) && !Before(order, ref.target, ref.source)
  }

  ghost function BackPart(list: seq<Item>, order: seq<string>, ref: Ref): seq<Ref> {
    if LeadsBack(list, order, ref) then [ref] else []
  }

  ghost function Backward(list: seq<Item>, order: seq<string>, refs: seq<Ref>): seq<Ref> {
    if refs == [] then [] else BackPart(list, order, refs[0]) + Backward(list, order, refs[1..])
  }

  lemma {:induction false} BackwardConcat(list: seq<Item>, order: seq<string>, a: seq<Ref>, b: seq<Ref>)
    ensures Backward(list, order, a + b) == Backward(list, order, a) + Backward(list, order, b)
  {
    if a == [] {
      assert a + b == b;
    } else {
      BackwardConcat(list, order, a[1..], b);
      assert (a + b)[0] == a[0] && (a + b)[1..] == a[1..] + b;
      Associative(BackPart(list, order, a[0]), Backward(list, order, a[1..]), Backward(list, order, b));
    }
  }

  lemma {:induction false} BackwardCount(list: seq<Item>, order: seq<string>, refs: seq<Ref>, ref: Ref)
    ensures multiset(Backward(list, order, refs))[ref] == if LeadsBack(list, order, ref) then multiset(refs)[ref] else 0
  {
    if refs != [] {
      BackwardCount(list, order, refs[1..], ref);
      assert refs == [refs[0]] + refs[1..];
    }
  }

  /** In `order` come the names finished before the call, those the call finishes, and the path from its end. */
  ghost predicate Placed(order: seq<string>, before: seq<string>, finished: seq<string>, path: seq<string>,
                         done: set<string>)
  {
    Distinct(order) && Respects(order, before + finished + Reverse(path)) && Elements(before) == done - Elements(path)
  }

  /** The call for an item, and the loop over its dependencies. */
  lemma PlacedInside(order: seq<string>, before: seq<string>, inner: seq<string>, path: seq<string>, name: string,
                     done: set<string>)
    requires Placed(order, before, inner + [name], path, done) && name !in done
    ensures Placed(order, before, inner, path + [name], done + {name})
  {
    assert (path + [name])[..|path|] == path;
    assert before + inner + ([name] + Reverse(path)) == before + (inner + [name]) + Reverse(path);
    ElementsConcat(path, [name]);
  }

  /** Two calls in a row. */
  lemma PlacedThen(order: seq<string>, before: seq<string>, a: Outcome, b: Outcome, path: seq<string>,
                   done: set<string>)
    requires Placed(order, before, a.finished + b.finished, path, done)
    requires done <= a.done && Elements(a.finished) == a.done - done && Elements(path) <= done
    ensures Placed(order, before, a.finished, path, done)
    ensures Placed(order, before + a.finished, b.finished, path, a.done)
  {
    var last := Reverse(path);
    assert before + (a.finished + b.finished) + last == (before + a.finished) + b.finished + last;
    RespectsWithout(order, before + a.finished, b.finished, last);
    ElementsConcat(before, a.finished);
  }

  lemma NotBothBefore(order: seq<string>, x: string, y: string)
    requires Distinct(order)
    ensures !(Before(order, x, y) && Before(order, y, x))
  {
  }

  /** What is on the path is not finished before the end of the path. */
  lemma OnPathLeadsBack(order: seq<string>, before: seq<string>, path: seq<string>, done: set<string>, source: string,
                        dep: string)
    requires Placed(order, before, [], path, done) && dep in path && path[|path| - 1] == source
    ensures !Before(order, dep, source)
  {
    ReverseElements(path);
    var s := before + [] + Reverse(path);
    assert dep in Elements(Reverse(path));
    var k := Position(Reverse(path), dep);
    assert s[|before|] == source && s[|before| + k] == dep;
    NotBothBefore(order, source, dep);
  }

  /** What has been followed is finished before the end of the path. */
  lemma HandledIsFinished(list: seq<Item>, source: string, dep: string, path: seq<string>, done: set<string>,
                          order: seq<string>, before: seq<string>)
    requires Looping(list, source, [dep], path, done) && dep !in path && dep in Names(list)
    requires Placed(order, before, SearchOne(list, source, dep, path, done).finished, path, done)
    ensures Before(order, dep, source)
  {
    var r := SearchOne(list, source, dep, path, done);
    FindNames(list, dep);
    SearchOneCovers(list, source, dep, path, done);
    SearchCovers(list, Find(list, dep), path, done);
    ElementsConcat(before, r.finished);
    assert dep in Elements(before + r.finished);
    ReverseElements(path);
    assert source in Elements(Reverse(path));
    RespectsAcross(order, before + r.finished, Reverse(path), dep, source);
  }

  lemma {:induction false} SearchBack(list: seq<Item>, index: nat, path: seq<string>, done: set<string>,
                                      order: seq<string>, before: seq<string>)
    requires index < |list| && Reached(list, index, path, done)
    requires Placed(order, before, Search(list, index, path, done).finished, path, done)
    ensures var r := Search(list, index, path, done); Closings(r.cycles) == Backward(list, order, r.examined)
    decreases Names(list) - done, 0, 0
  {
    var item := list[index];
    assert item.name in Names(list);
    if item.name !in done && item.dependsOn != [] {
      var longer, inner := path + [item.name], done + {item.name};
      ReachedToLooping(list, index, path, done);
      PlacedInside(order, before, SearchAll(list, item.name, item.dependsOn, longer, inner).finished, path, item.name,
                   done);
      SearchAllBack(list, item.name, item.dependsOn, longer, inner, order, before);
    }
  }

  lemma {:induction false} SearchAllBack(list: seq<Item>, source: string, deps: seq<string>, path: seq<string>,
                                         done: set<string>,
                                         order: seq<string>, before: seq<string>)
    requires Looping(list, source, deps, path, done)
    requires Placed(order, before, SearchAll(list, source, deps, path, done).finished, path, done)
    ensures var r := SearchAll(list, source, deps, path, done); Closings(r.cycles) == Backward(list, order, r.examined)
    decreases Names(list) - done, 2, |deps|
  {
    if deps != [] {
      var here := SearchOne(list, source, deps[0], path, done);
      var rest := SearchAll(list, source, deps[1..], path, here.done);
      LoopingStep(list, source, deps, path, done);
      SearchOneCovers(list, source, deps[0], path, done);
      PlacedThen(order, before, here, rest, path, done);
      SearchOneBack(list, source, deps[0], path, done, order, before);
      SearchAllBack(list, source, deps[1..], path, here.done, order, before + here.finished);
      ClosingsConcat(here.cycles, rest.cycles);
      BackwardConcat(list, order, here.examined, rest.examined);
    }
  }

  lemma {:induction false} SearchOneBack(list: seq<Item>, source: string, dep: string, path: seq<string>,
                                         done: set<string>,
                                         order: seq<string>, before: seq<string>)
    requires Looping(list, source, [dep], path, done)
    requires Placed(order, before, SearchOne(list, source, dep, path, done).finished, path, done)
    ensures var r := SearchOne(list, source, dep, path, done); Closings(r.cycles) == Backward(list, order, r.examined)
    decreases Names(list) - done, 1, 0
  {
    var ref := Ref(source, dep);
    var r := SearchOne(list, source, dep, path, done);
    FindNames(list, dep);
    if dep in path {
      TailIsCycle(list, source, dep, path, done);
      OnPathLeadsBack(order, before, path, done, source, dep);
      assert Closings(r.cycles) == [ref] + Closings([]);
      assert Backward(list, order, r.examined) == [ref] + Backward(list, order, []);
    } else if Find(list, dep) < 0 {
      assert Backward(list, order, [ref]) == [] + Backward(list, order, []);
    } else {
      var inner := Search(list, Find(list, dep), path, done);
      LoopingToReached(list, source, dep, path, done);
      SearchBack(list, Find(list, dep), path, done, order, before);
      HandledIsFinished(list, source, dep, path, done, order, before);
      BackwardConcat(list, order, [ref], inner.examined);
      assert Backward(list, order, [ref]) == [] + Backward(list, order, []);
    }
  }

  lemma {:induction false} SearchFromBack(list: seq<Item>, i: nat, done: set<string>, order: seq<string>,
                                          before: seq<string>)
    requires i <= |list| && Names(list[..i]) <= done
    requires Placed(order, before, SearchFrom(list, i, done).finished, [], done)
    ensures var r := SearchFrom(list, i, done); Closings(r.cycles) == Backward(list, order, r.examined)
    decreases |list| - i
  {
    if i < |list| {
      var here := Search(list, i, [], done);
      var rest := SearchFrom(list, i + 1, here.done);
      FirstIsReached(list, i, done);
      SearchCovers(list, i, [], done);
      NamesStep(list, i);
      PlacedThen(order, before, here, rest, [], done);
      SearchBack(list, i, [], done, order, before);
      SearchFromBack(list, i + 1, here.done, order, before + here.finished);
      ClosingsConcat(here.cycles, rest.cycles);
      BackwardConcat(list, order, here.examined, rest.examined);
    }
  }

  lemma WholePlaced(list: seq<Item>)
    ensures Placed(Check(list).finished, [], Check(list).finished, [], {})
  {
    Coverage(list);
    var order := Check(list).finished;
    assert [] + order + Reverse([]) == order;
    forall i, j | 0 <= i < j < |order| ensures Before(order, order[i], order[j]) {
    }
  }

  /**
   The entries that close the reported cycles are, one by one, the examined entries whose target is not
   finished before their source.
   */
  lemma ClosingEntries(list: seq<Item>)
    ensures Closings(Check(list).cycles) == Backward(list, Check(list).finished, Check(list).examined)
  {
    WholePlaced(list);
    assert Names(list[..0]) == {};
    SearchFromBack(list, 0, {}, Check(list).finished, []);
  }

  // ---------- Repeated entries ----------

  /** Every occurrence of a name on the path among the dependencies reports its cycle. */
  lemma {:induction false} ReportedPerEntry(list: seq<Item>, source: string, deps: seq<string>, path: seq<string>,
                                            done: set<string>, dep: string)
    requires dep in path
    ensures multiset(deps)[dep] <= multiset(SearchAll(list, source, deps, path, done).cycles)[Tail(path, dep)]
    decreases |deps|
  {
    if deps != [] {
      var here := SearchOne(list, source, deps[0], path, done);
      ReportedPerEntry(list, source, deps[1..], path, here.done, dep);
      CountsOfConcat(here.cycles, SearchAll(list, source, deps[1..], path, here.done).cycles);
      assert deps == [deps[0]] + deps[1..];
    }
  }

  /** After the loop every defined dependency is handled. */
  lemma {:induction false} SearchAllHandles(list: seq<Item>, source: string, deps: seq<string>, path: seq<string>,
                                            done: set<string>, dep: string)
    requires dep in deps && dep in Names(list) && dep !in path
    ensures dep in SearchAll(list, source, deps, path, done).done
    decreases |deps|
  {
    var here := SearchOne(list, source, deps[0], path, done);
    if dep == deps[0] {
      FindNames(list, dep);
      SearchCovers(list, Find(list, dep), path, done);
    } else {
      SearchAllHandles(list, source, deps[1..], path, here.done, dep);
    }
  }

  /** The name depends twice on a defined name that is not finished before it. */
  ghost predicate RepeatsBack(list: seq<Item>, order: seq<string>, name: string, dep: string) {
    multiset(Deps(list, name))[dep] >= 2 && LeadsBack(list, order, Ref(name, dep))
  }

  ghost predicate ReportsTwice(r: Outcome) {
    exists c :: multiset(r.cycles)[c] >= 2
  }

  lemma ReportsTwiceThen(a: Outcome, b: Outcome)
    requires ReportsTwice(a) || ReportsTwice(b)
    ensures ReportsTwice(a.Then(b))
  {
    CountsOfConcat(a.cycles, b.cycles);
    var c :| multiset(a.cycles)[c] >= 2 || multiset(b.cycles)[c] >= 2;
    assert multiset(a.Then(b).cycles)[c] >= 2;
  }

  lemma RepeatedHere(list: seq<Item>, name: string, deps: seq<string>, path: seq<string>, done: set<string>,
                     order: seq<string>, before: seq<string>, dep: string)
    requires Looping(list, name, deps, path, done) && multiset(deps)[dep] >= 2
    requires Placed(order, before, SearchAll(list, name, deps, path, done).finished, path, done)
    requires LeadsBack(list, order, Ref(name, dep))
    ensures ReportsTwice(SearchAll(list, name, deps, path, done))
  {
    var r := SearchAll(list, name, deps, path, done);
    if dep in path {
      ReportedPerEntry(list, name, deps, path, done, dep);
    } else {
      assert dep in multiset(deps);
      SearchAllHandles(list, name, deps, path, done, dep);
      SearchAllCovers(list, name, deps, path, done);
      ElementsConcat(before, r.finished);
      assert dep in Elements(before + r.finished);
      ReverseElements(path);
      assert name in Elements(Reverse(path));
      RespectsAcross(order, before + r.finished, Reverse(path), dep, name);
    }
  }

  lemma {:induction false} SearchRepeats(list: seq<Item>, index: nat, path: seq<string>, done: set<string>,
                                         order: seq<string>, before: seq<string>, name: string, dep: string)
    requires index < |list| && Reached(list, index, path, done)
    requires Placed(order, before, Search(list, index, path, done).finished, path, done)
    requires name in Search(list, index, path, done).finished && RepeatsBack(list, order, name, dep)
    ensures ReportsTwice(Search(list, index, path, done))
    decreases Names(list) - done, 0, 0
  {
    var item := list[index];
    assert item.name in Names(list);
    if item.dependsOn != [] {
      var longer, inner := path + [item.name], done + {item.name};
      var r := SearchAll(list, item.name, item.dependsOn, longer, inner);
      ReachedToLooping(list, index, path, done);
      PlacedInside(order, before, r.finished, path, item.name, done);
      if name in r.finished {
        SearchAllRepeats(list, item.name, item.dependsOn, longer, inner, order, before, name, dep);
      } else {
        RepeatedHere(list, name, item.dependsOn, longer, inner, order, before, dep);
      }
    }
  }

  lemma {:induction false} SearchAllRepeats(list: seq<Item>, source: string, deps: seq<string>, path: seq<string>,
                                            done: set<string>,
                                            order: seq<string>, before: seq<string>, name: string, dep: string)
    requires Looping(list, source, deps, path, done)
    requires Placed(order, before, SearchAll(list, source, deps, path, done).finished, path, done)
    requires name in SearchAll(list, source, deps, path, done).finished && RepeatsBack(list, order, name, dep)
    ensures ReportsTwice(SearchAll(list, source, deps, path, done))
    decreases Names(list) - done, 2, |deps|
  {
    if deps != [] {
      var here := SearchOne(list, source, deps[0], path, done);
      var rest := SearchAll(list, source, deps[1..], path, here.done);
      LoopingStep(list, source, deps, path, done);
      SearchOneCovers(list, source, deps[0], path, done);
      PlacedThen(order, before, here, rest, path, done);
      if name in here.finished {
        FindNames(list, deps[0]);
        LoopingToReached(list, source, deps[0], path, done);
        SearchRepeats(list, Find(list, deps[0]), path, done, order, before, name, dep);
      } else {
        SearchAllRepeats(list, source, deps[1..], path, here.done, order, before + here.finished, name, dep);
      }
      ReportsTwiceThen(here, rest);
    }
  }

  lemma {:induction false} SearchFromRepeats(list: seq<Item>, i: nat, done: set<string>, order: seq<string>,
                                             before: seq<string>,
                                             name: string, dep: string)
    requires i <= |list| && Names(list[..i]) <= done
    requires Placed(order, before, SearchFrom(list, i, done).finished, [], done)
    requires name in SearchFrom(list, i, done).finished && RepeatsBack(list, order, name, dep)
    ensures ReportsTwice(SearchFrom(list, i, done))
    decreases |list| - i
  {
    if i < |list| {
      var here := Search(list, i, [], done);
      var rest := SearchFrom(list, i + 1, here.done);
      FirstIsReached(list, i, done);
      SearchCovers(list, i, [], done);
      NamesStep(list, i);
      PlacedThen(order, before, here, rest, [], done);
      if name in here.finished {
        SearchRepeats(list, i, [], done, order, before, name, dep);
      } else {
        SearchFromRepeats(list, i + 1, here.done, order, before + here.finished, name, dep);
      }
      ReportsTwiceThen(here, rest);
    }
  }

  // ---------- No cycle twice ----------

  /** Two cycles are the same round, started at different places. */
  ghost predicate Rotation(a: Cycle, b: Cycle) {
    exists k :: 0 <= k < |a| && b == a[k..] + a[..k]
  }

  /** Among the elements of a cycle the first is the last to be finished. */
  lemma FirstIsLast(order: seq<string>, c: Cycle, n: string)
    requires Descends(c, order) && n in c
    ensures n == c[0] || Before(order, n, c[0])
  {
    var k :| 0 <= k < |c| && c[k] == n;
  }

  lemma RotationIsSame(order: seq<string>, a: Cycle, b: Cycle)
    requires Distinct(order) && Distinct(a) && Descends(a, order) && Descends(b, order)
    requires Rotation(a, b)
    ensures a == b
  {
    var k :| 0 <= k < |a| && b == a[k..] + a[..k];
    assert b[0] == a[k];
    assert a[0] == b[if k == 0 then 0 else |a| - k];
    FirstIsLast(order, a, b[0]);
    FirstIsLast(order, b, a[0]);
    NotBothBefore(order, a[0], b[0]);
  }

  lemma CountTwice<T>(s: seq<T>, i: nat, j: nat)
    requires i < j < |s| && s[i] == s[j]
    ensures multiset(s)[s[i]] >= 2
  {
    assert s == s[..i] + ([s[i]] + (s[i + 1..j] + ([s[j]] + s[j + 1..])));
  }

  lemma {:induction false} EntriesCount(source: string, deps: seq<string>, ref: Ref)
    ensures multiset(Entries(source, deps))[ref] == if ref.source == source then multiset(deps)[ref.target] else 0
  {
    if deps != [] {
      EntriesCount(source, deps[1..], ref);
      assert deps == [deps[0]] + deps[1..];
    }
  }

  /** How often an entry is written: as often as its target occurs under its source. */
  lemma {:induction false} EntriesOfCount(list: seq<Item>, names: seq<string>, ref: Ref)
    requires Distinct(names)
    ensures multiset(EntriesOf(list, names))[ref] ==
      if ref.source in names then multiset(Deps(list, ref.source))[ref.target] else 0
  {
    if names != [] {
      EntriesOfCount(list, names[1..], ref);
      EntriesCount(names[0], Deps(list, names[0]), ref);
      assert names == [names[0]] + names[1..];
    }
  }

  /** Whatever depends twice on a defined name finishes after it. */
  ghost predicate RepeatsHarmless(list: seq<Item>) {
    forall n, d :: n in Names(list) ==> !RepeatsBack(list, Check(list).finished, n, d)
  }

  lemma HarmlessClosingsDistinct(list: seq<Item>)
    requires RepeatsHarmless(list)
    ensures Distinct(Closings(Check(list).cycles))
  {
    var r := Check(list);
    var closings := Closings(r.cycles);
    forall i, j | 0 <= i < j < |closings| ensures closings[i] != closings[j] {
      if closings[i] == closings[j] {
        CountTwice(closings, i, j);
        ClosingEntries(list);
        BackwardCount(list, r.finished, r.examined, closings[i]);
        EveryEntryOnce(list);
        EntriesOfCount(list, r.finished, closings[i]);
        assert closings[i].source in Elements(r.finished);
        assert RepeatsBack(list, r.finished, closings[i].source, closings[i].target);
      }
    }
  }

  lemma DistinctClosingsNoRotation(list: seq<Item>, i: nat, j: nat)
    requires Distinct(Closings(Check(list).cycles)) && i < j < |Check(list).cycles|
    ensures !Rotation(Check(list).cycles[i], Check(list).cycles[j])
  {
    var r := Check(list);
    var a, b := r.cycles[i], r.cycles[j];
    CyclesNotEmpty(list);
    ClosingsAt(r.cycles);
    assert Closings(r.cycles)[i] == Closing(a) && Closings(r.cycles)[j] == Closing(b);
    Soundness(list);
    assert SimpleCycle(list, a);
    SearchFromDescends(list, 0, {});
    assert r.finished + [] == r.finished;
    Coverage(list);
    if Rotation(a, b) {
      RotationIsSame(r.finished, a, b);
    }
  }

  lemma HarmfulReportsTwice(list: seq<Item>)
    requires !RepeatsHarmless(list)
    ensures exists i, j :: 0 <= i < j < |Check(list).cycles| && Check(list).cycles[i] == Check(list).cycles[j]
  {
    var r := Check(list);
    var n, d :| n in Names(list) && RepeatsBack(list, r.finished, n, d);
    WholePlaced(list);
    Coverage(list);
    assert n in Elements(r.finished);
    assert Names(list[..0]) == {};
    SearchFromRepeats(list, 0, {}, r.finished, [], n, d);
    var c :| multiset(r.cycles)[c] >= 2;
    if Distinct(r.cycles) {
      CountDistinct(r.cycles, c);
    }
  }

  /** No cycle is reported twice, not even started at another item. */
  ghost predicate NoCycleTwice(list: seq<Item>) {
    forall i, j :: 0 <= i < j < |Check(list).cycles| ==> !Rotation(Check(list).cycles[i], Check(list).cycles[j])
  }

  /**
   For one run: no cycle is reported twice exactly when no item depends twice on a defined item that is not
   finished before it.
   */
  lemma NoCycleTwiceIff(list: seq<Item>)
    ensures NoCycleTwice(list) <==> RepeatsHarmless(list)
  {
    if RepeatsHarmless(list) {
      HarmlessClosingsDistinct(list);
      forall i, j | 0 <= i < j < |Check(list).cycles| ensures !Rotation(Check(list).cycles[i], Check(list).cycles[j]) {
        DistinctClosingsNoRotation(list, i, j);
      }
    } else {
      HarmfulReportsTwice(list);
      CyclesNotEmpty(list);
      var i, j :| 0 <= i < j < |Check(list).cycles| && Check(list).cycles[i] == Check(list).cycles[j];
      var c := Check(list).cycles[i];
      assert c == c[0..] + c[..0];
    }
  }
}
