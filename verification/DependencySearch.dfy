/**
 The depth-first search behind the deploy item check, as a function: what one call returns, given the
 path that led to it and the set of names already handled.  The set plays both colours of the textbook
 search: a handled name on the path is still open, any other handled name is finished.

 Two further observations are recorded with every result: which `dependsOn` entries the search looked
 at, and in which order it finished the names.  The theorems below are about them.
 */
module DependencySearch {
  import opened Basics
  import opened DependencyGraph

  type Cycle = seq<string>

  datatype Outcome = Outcome(
    cycles: seq<Cycle>,
    undefined: seq<Ref>,
    done: set<string>,
    examined: seq<Ref>,
    finished: seq<string>)
  {
    /** This outcome followed by one that started from its `done`. */
    function Then(next: Outcome): Outcome {
      Outcome(cycles + next.cycles, undefined + next.undefined, next.done,
              examined + next.examined, finished + next.finished)
    }
  }

  function Nothing(done: set<string>): Outcome {
    Outcome([], [], done, [], [])
  }

  /** The part of the path that starts at its first occurrence of `name`. */
  function Tail(path: seq<string>, name: string): Cycle {
    if path == [] || path[0] == name then path else Tail(path[1..], name)
  }

  /** What a call for the item at `index` returns. */
  function Search(list: seq<Item>, index: nat, path: seq<string>, done: set<string>): (r: Outcome)
    requires index < |list|
    ensures done <= r.done
    decreases Names(list) - done, 0, 0
  {
    var item := list[index];
    if item.name in done then Nothing(done)
    else if item.dependsOn == [] then Nothing(done + {item.name}).(finished := [item.name])
    else
      assert item.name in Names(list);
      var r := SearchAll(list, item.name, item.dependsOn, path + [item.name], done + {item.name});
      r.(finished := r.finished + [item.name])
  }

  /** What the loop over the dependencies of `source` collects. */
  function SearchAll(list: seq<Item>, source: string, deps: seq<string>, path: seq<string>,
                     done: set<string>): (r: Outcome)
    ensures done <= r.done
    decreases Names(list) - done, 2, |deps|
  {
    if deps == [] then Nothing(done)
    else
      var here := SearchOne(list, source, deps[0], path, done);
      here.Then(SearchAll(list, source, deps[1..], path, here.done))
  }

  /** What one round of that loop contributes. */
  function SearchOne(list: seq<Item>, source: string, dep: string, path: seq<string>, done: set<string>): (r: Outcome)
    ensures done <= r.done
    decreases Names(list) - done, 1, 0
  {
    var r :=
      if dep in path then Nothing(done).(cycles := [Tail(path, dep)])
      else if Find(list, dep) < 0 then Nothing(done).(undefined := [Ref(source, dep)])
      else Search(list, Find(list, dep), path, done);
    r.(examined := [Ref(source, dep)] + r.examined)
  }

  /** What the loop over the items collects, from item `i` on. */
  function SearchFrom(list: seq<Item>, i: nat, done: set<string>): (r: Outcome)
    requires i <= |list|
    ensures done <= r.done
    decreases |list| - i
  {
    if i == |list| then Nothing(done)
    else
      var here := Search(list, i, [], done);
      here.Then(SearchFrom(list, i + 1, here.done))
  }

  function Check(list: seq<Item>): Outcome {
    SearchFrom(list, 0, {})
  }

  // ---------- Situations in which a call happens ----------

  /** A path the search can be on: distinct, handled names, each depending on the next. */
  ghost predicate OnPath(list: seq<Item>, path: seq<string>, done: set<string>) {
    Walk(list, path) && Distinct(path) && Elements(path) <= done
  }

  /** The call for `index` is reached from `path`, and a name is handled unless this is its first item. */
  ghost predicate Reached(list: seq<Item>, index: nat, path: seq<string>, done: set<string>)
    requires index < |list|
  {
    var name := list[index].name;
    && OnPath(list, path, done)
    && name !in path
    && (path != [] ==> Edge(list, path[|path| - 1], name))
    && (name in done || Find(list, name) == index)
  }

  /** The loop of `source`, the last name on the path, has `deps` left to look at. */
  ghost predicate Looping(list: seq<Item>, source: string, deps: seq<string>, path: seq<string>, done: set<string>) {
    && OnPath(list, path, done)
    && path != [] && path[|path| - 1] == source
    && (forall d :: d in deps ==> d in Deps(list, source))
  }

  lemma ReachedToLooping(list: seq<Item>, index: nat, path: seq<string>, done: set<string>)
    requires index < |list| && Reached(list, index, path, done) && list[index].name !in done
    ensures var name := list[index].name;
      Looping(list, name, list[index].dependsOn, path + [name], done + {name})
  {
    var name := list[index].name;
    var longer := path + [name];
    assert name in Names(list);
    forall i | 0 <= i < |longer| - 1 ensures Edge(list, longer[i], longer[i + 1]) {
      if i < |path| - 1 {
        assert Edge(list, path[i], path[i + 1]);
      }
    }
    assert Distinct([name]);
    DistinctConcat(path, [name]);
  }

  lemma LoopingToReached(list: seq<Item>, source: string, dep: string, path: seq<string>, done: set<string>)
    requires Looping(list, source, [dep], path, done)
    requires dep !in path && 0 <= Find(list, dep)
    ensures Reached(list, Find(list, dep), path, done)
  {
    assert dep in [dep];
    FindNames(list, dep);
  }

  lemma LoopingStep(list: seq<Item>, source: string, deps: seq<string>, path: seq<string>, done: set<string>)
    requires Looping(list, source, deps, path, done) && deps != []
    ensures Looping(list, source, [deps[0]], path, done)
    ensures Looping(list, source, deps[1..], path, SearchOne(list, source, deps[0], path, done).done)
  {
  }

  // ---------- Coverage ----------

  /** Exactly the newly handled names are finished, each once, and all of them are defined. */
  ghost predicate Covers(list: seq<Item>, r: Outcome, done: set<string>) {
    Distinct(r.finished) && Elements(r.finished) == r.done - done && Elements(r.finished) <= Names(list)
  }

  lemma CoversThen(list: seq<Item>, a: Outcome, b: Outcome, done: set<string>)
    requires done <= a.done <= b.done
    requires Covers(list, a, done) && Covers(list, b, a.done)
    ensures Covers(list, a.Then(b), done)
  {
    DistinctConcat(a.finished, b.finished);
    ElementsConcat(a.finished, b.finished);
  }

  lemma {:induction false} SearchCovers(list: seq<Item>, index: nat, path: seq<string>, done: set<string>)
    requires index < |list|
    ensures Covers(list, Search(list, index, path, done), done)
    ensures Search(list, index, path, done).done ==
      done + {list[index].name} + Elements(Search(list, index, path, done).finished)
    decreases Names(list) - done, 0, 0
  {
    var item := list[index];
    assert item.name in Names(list);
    if item.name !in done && item.dependsOn != [] {
      var inner := done + {item.name};
      SearchAllCovers(list, item.name, item.dependsOn, path + [item.name], inner);
      var r := SearchAll(list, item.name, item.dependsOn, path + [item.name], inner);
      assert Distinct([item.name]);
      DistinctConcat(r.finished, [item.name]);
      ElementsConcat(r.finished, [item.name]);
    }
  }

  lemma {:induction false} SearchAllCovers(list: seq<Item>, source: string, deps: seq<string>, path: seq<string>,
                                           done: set<string>)
    ensures Covers(list, SearchAll(list, source, deps, path, done), done)
    decreases Names(list) - done, 2, |deps|
  {
    if deps != [] {
      var here := SearchOne(list, source, deps[0], path, done);
      SearchOneCovers(list, source, deps[0], path, done);
      SearchAllCovers(list, source, deps[1..], path, here.done);
      CoversThen(list, here, SearchAll(list, source, deps[1..], path, here.done), done);
    }
  }

  lemma {:induction false} SearchOneCovers(list: seq<Item>, source: string, dep: string, path: seq<string>,
                                           done: set<string>)
    ensures Covers(list, SearchOne(list, source, dep, path, done), done)
    decreases Names(list) - done, 1, 0
  {
    if dep !in path && 0 <= Find(list, dep) {
      SearchCovers(list, Find(list, dep), path, done);
    }
  }

  lemma NamesStep(list: seq<Item>, i: nat)
    requires i < |list|
    ensures Names(list[..i + 1]) == Names(list[..i]) + {list[i].name}
  {
    var front := list[..i + 1];
    forall n | n in Names(front) ensures n in Names(list[..i]) + {list[i].name} {
      var k :| 0 <= k < |front| && front[k].name == n;
      assert k < i ==> list[..i][k].name == n;
    }
    forall n | n in Names(list[..i]) + {list[i].name} ensures n in Names(front) {
      if n in Names(list[..i]) {
        var k :| 0 <= k < i && list[..i][k].name == n;
        assert front[k].name == n;
      } else {
        assert front[i].name == n;
      }
    }
  }

  lemma {:induction false} SearchFromCovers(list: seq<Item>, i: nat, done: set<string>)
    requires i <= |list|
    requires Names(list[..i]) <= done
    ensures Covers(list, SearchFrom(list, i, done), done)
    ensures Names(list) <= SearchFrom(list, i, done).done
    decreases |list| - i
  {
    if i == |list| {
      assert list[..i] == list;
    } else {
      var here := Search(list, i, [], done);
      SearchCovers(list, i, [], done);
      NamesStep(list, i);
      SearchFromCovers(list, i + 1, here.done);
      CoversThen(list, here, SearchFrom(list, i + 1, here.done), done);
    }
  }

  /** On any list, cyclic or not: every defined name is handled and finished exactly once, and nothing else is. */
  lemma Coverage(list: seq<Item>)
    ensures Check(list).done == Names(list)
    ensures Distinct(Check(list).finished) && Elements(Check(list).finished) == Names(list)
  {
    assert Names(list[..0]) == {};
    SearchFromCovers(list, 0, {});
  }

  // ---------- Soundness ----------

  /** A closed walk through pairwise different items. */
  ghost predicate SimpleCycle(list: seq<Item>, c: Cycle) {
    ClosedWalk(list, c) && Distinct(c)
  }

  ghost predicate AllSimpleCycles(list: seq<Item>, cycles: seq<Cycle>) {
    forall c :: c in cycles ==> SimpleCycle(list, c)
  }

  lemma {:induction false} TailIsSuffix(path: seq<string>, name: string) returns (k: nat)
    requires name in path
    ensures k < |path| && Tail(path, name) == path[k..] && path[k] == name && name !in path[..k]
  {
    if path[0] == name {
      k := 0;
    } else {
      var before := TailIsSuffix(path[1..], name);
      k := before + 1;
      assert path[..k] == [path[0]] + path[1..][..before];
    }
  }

  lemma SuffixIsWalk(list: seq<Item>, path: seq<string>, k: nat)
    requires Walk(list, path) && Distinct(path) && k <= |path|
    ensures Walk(list, path[k..]) && Distinct(path[k..])
  {
    var c := path[k..];
    forall i | 0 <= i < |c| - 1 ensures Edge(list, c[i], c[i + 1]) {
      assert Edge(list, path[k + i], path[k + i + 1]);
    }
  }

  lemma TailIsCycle(list: seq<Item>, source: string, dep: string, path: seq<string>, done: set<string>)
    requires Looping(list, source, [dep], path, done) && dep in path
    ensures SimpleCycle(list, Tail(path, dep))
    ensures var c := Tail(path, dep); c != [] && c[0] == dep && c[|c| - 1] == source
  {
    var k := TailIsSuffix(path, dep);
    SuffixIsWalk(list, path, k);
    var c := path[k..];
    assert c[0] == dep && c[|c| - 1] == source;
    assert dep in [dep];
  }

  lemma {:induction false} SearchSound(list: seq<Item>, index: nat, path: seq<string>, done: set<string>)
    requires index < |list| && Reached(list, index, path, done)
    ensures AllSimpleCycles(list, Search(list, index, path, done).cycles)
    decreases Names(list) - done, 0, 0
  {
    var item := list[index];
    assert item.name in Names(list);
    if item.name !in done && item.dependsOn != [] {
      ReachedToLooping(list, index, path, done);
      SearchAllSound(list, item.name, item.dependsOn, path + [item.name], done + {item.name});
    }
  }

  lemma {:induction false} SearchAllSound(list: seq<Item>, source: string, deps: seq<string>, path: seq<string>,
                                          done: set<string>)
    requires Looping(list, source, deps, path, done)
    ensures AllSimpleCycles(list, SearchAll(list, source, deps, path, done).cycles)
    decreases Names(list) - done, 2, |deps|
  {
    if deps != [] {
      var here := SearchOne(list, source, deps[0], path, done);
      LoopingStep(list, source, deps, path, done);
      SearchOneSound(list, source, deps[0], path, done);
      SearchAllSound(list, source, deps[1..], path, here.done);
    }
  }

  lemma {:induction false} SearchOneSound(list: seq<Item>, source: string, dep: string, path: seq<string>,
                                          done: set<string>)
    requires Looping(list, source, [dep], path, done)
    ensures AllSimpleCycles(list, SearchOne(list, source, dep, path, done).cycles)
    decreases Names(list) - done, 1, 0
  {
    if dep in path {
      TailIsCycle(list, source, dep, path, done);
    } else if 0 <= Find(list, dep) {
      LoopingToReached(list, source, dep, path, done);
      SearchSound(list, Find(list, dep), path, done);
    }
  }

  /** The loop over the items meets the first item of every name first. */
  lemma FirstIsReached(list: seq<Item>, i: nat, done: set<string>)
    requires i < |list| && Names(list[..i]) <= done
    ensures Reached(list, i, [], done)
  {
    var name := list[i].name;
    var f := Find(list, name);
    if f < i {
      assert list[..i][f].name == name;
    }
  }

  lemma {:induction false} SearchFromSound(list: seq<Item>, i: nat, done: set<string>)
    requires i <= |list| && Names(list[..i]) <= done
    ensures AllSimpleCycles(list, SearchFrom(list, i, done).cycles)
    decreases |list| - i
  {
    if i < |list| {
      var here := Search(list, i, [], done);
      FirstIsReached(list, i, done);
      SearchSound(list, i, [], done);
      SearchCovers(list, i, [], done);
      NamesStep(list, i);
      SearchFromSound(list, i + 1, here.done);
    }
  }

  /**
   Every reported cycle is one: not empty, through different defined items, each depending on the next and the
   last on the first.
   */
  lemma Soundness(list: seq<Item>)
    ensures forall c :: c in Check(list).cycles ==> SimpleCycle(list, c)
  {
    assert Names(list[..0]) == {};
    SearchFromSound(list, 0, {});
  }

  // ---------- Completeness ----------

  /** What a call without cycles guarantees: the names it finished follow their dependencies. */
  ghost predicate Sorted(list: seq<Item>, r: Outcome, path: seq<string>, done: set<string>) {
    r.cycles == [] ==> Ordered(list, done - Elements(path), r.finished)
  }

  lemma {:induction false} SearchSorted(list: seq<Item>, index: nat, path: seq<string>, done: set<string>)
    requires index < |list| && Reached(list, index, path, done)
    ensures Sorted(list, Search(list, index, path, done), path, done)
    decreases Names(list) - done, 0, 0
  {
    var item := list[index];
    var name := item.name;
    assert name in Names(list);
    if name !in done && item.dependsOn != [] {
      var longer, inner := path + [name], done + {name};
      ReachedToLooping(list, index, path, done);
      SearchAllSorted(list, name, item.dependsOn, longer, inner);
      SearchAllCovers(list, name, item.dependsOn, longer, inner);
      ElementsConcat(path, [name]);
      assert inner - Elements(longer) == done - Elements(path);
      var r := SearchAll(list, name, item.dependsOn, longer, inner);
      if r.cycles == [] {
        assert r.done - Elements(longer) <= done - Elements(path) + Elements(r.finished);
        assert Ordered(list, done - Elements(path) + Elements(r.finished), [name]);
        OrderedConcat(list, done - Elements(path), r.finished, [name]);
      }
    }
  }

  lemma {:induction false} SearchAllSorted(list: seq<Item>, source: string, deps: seq<string>, path: seq<string>,
                                           done: set<string>)
    requires Looping(list, source, deps, path, done)
    ensures var r := SearchAll(list, source, deps, path, done);
      && Sorted(list, r, path, done)
      && (r.cycles == [] ==> forall d :: d in deps && d in Names(list) ==> d in r.done - Elements(path))
    decreases Names(list) - done, 2, |deps|
  {
    if deps != [] {
      var here := SearchOne(list, source, deps[0], path, done);
      var rest := SearchAll(list, source, deps[1..], path, here.done);
      LoopingStep(list, source, deps, path, done);
      SearchOneSorted(list, source, deps[0], path, done);
      SearchAllSorted(list, source, deps[1..], path, here.done);
      SearchOneCovers(list, source, deps[0], path, done);
      if here.cycles == [] && rest.cycles == [] {
        assert here.done - Elements(path) == done - Elements(path) + Elements(here.finished);
        OrderedConcat(list, done - Elements(path), here.finished, rest.finished);
      }
    }
  }

  lemma {:induction false} SearchOneSorted(list: seq<Item>, source: string, dep: string, path: seq<string>,
                                           done: set<string>)
    requires Looping(list, source, [dep], path, done)
    ensures var r := SearchOne(list, source, dep, path, done);
      && Sorted(list, r, path, done)
      && (r.cycles == [] && dep in Names(list) ==> dep in r.done - Elements(path))
    decreases Names(list) - done, 1, 0
  {
    FindNames(list, dep);
    if dep !in path && 0 <= Find(list, dep) {
      LoopingToReached(list, source, dep, path, done);
      SearchSorted(list, Find(list, dep), path, done);
      SearchCovers(list, Find(list, dep), path, done);
    }
  }

  lemma {:induction false} SearchFromSorted(list: seq<Item>, i: nat, done: set<string>)
    requires i <= |list| && Names(list[..i]) <= done
    ensures Sorted(list, SearchFrom(list, i, done), [], done)
    decreases |list| - i
  {
    if i < |list| {
      var here := Search(list, i, [], done);
      var rest := SearchFrom(list, i + 1, here.done);
      FirstIsReached(list, i, done);
      SearchSorted(list, i, [], done);
      SearchCovers(list, i, [], done);
      NamesStep(list, i);
      SearchFromSorted(list, i + 1, here.done);
      if here.cycles == [] && rest.cycles == [] {
        assert here.done - Elements([]) == done - Elements([]) + Elements(here.finished);
        OrderedConcat(list, done - Elements([]), here.finished, rest.finished);
      }
    }
  }

  /** If no cycle is reported, the finishing order is a deployment order. */
  lemma Completeness(list: seq<Item>)
    requires Check(list).cycles == []
    ensures DeploymentOrder(list, Check(list).finished)
  {
    assert Names(list[..0]) == {};
    SearchFromSorted(list, 0, {});
    Coverage(list);
    assert {} - Elements<string>([]) == {};
  }

  /** A cycle is reported exactly when there is one. */
  lemma CyclesReportedIffCyclic(list: seq<Item>)
    ensures Check(list).cycles == [] <==> Acyclic(list)
    ensures Check(list).cycles == [] <==> exists order :: DeploymentOrder(list, order)
  {
    if Check(list).cycles == [] {
      Completeness(list);
      OrderImpliesAcyclic(list, Check(list).finished);
    } else {
      Soundness(list);
      var c := Check(list).cycles[0];
      assert SimpleCycle(list, c) && ClosedWalk(list, c);
      forall order ensures !DeploymentOrder(list, order) {
        if DeploymentOrder(list, order) {
          OrderForbidsClosedWalk(list, order, c);
        }
      }
    }
  }

  /** Two lists describe one graph: the same names with the same sets of dependencies. */
  ghost predicate SameGraph(a: seq<Item>, b: seq<Item>) {
    && Names(a) == Names(b)
    && forall n :: n in Names(a) ==> Elements(Deps(a, n)) == Elements(Deps(b, n))
  }

  lemma VerdictCarriesOver(a: seq<Item>, b: seq<Item>)
    requires SameGraph(a, b) && Check(a).cycles == []
    ensures Check(b).cycles == []
  {
    Completeness(a);
    var order := Check(a).finished;
    forall i, d | 0 <= i < |order| && Edge(b, order[i], d) ensures d in {} + Elements(order[..i]) {
      assert d in Elements(Deps(b, order[i]));
      assert Edge(a, order[i], d);
    }
    assert DeploymentOrder(b, order);
    CyclesReportedIffCyclic(b);
  }

  /**
   The verdict depends on the graph only: not on the order of the items, nor on order or repetition in
   `dependsOn`.
   */
  lemma VerdictDependsOnGraphOnly(a: seq<Item>, b: seq<Item>)
    requires SameGraph(a, b)
    ensures Check(a).cycles == [] <==> Check(b).cycles == []
  {
    if Check(a).cycles == [] {
      VerdictCarriesOver(a, b);
    }
    if Check(b).cycles == [] {
      VerdictCarriesOver(b, a);
    }
  }
}
