/**
 The dependency graph that a list of deploy item templates describes.

 Items are identified by name.  When several items carry one name, only the first of them can be
 looked up, so a name stands for the first item that carries it.
 */
module DependencyGraph {
  import opened Basics

  /** `labelErrors` is the number of complaints the label check of the platform makes; it is a parameter here. */
  datatype Item = Item(
    name: string,
    itemType: string,
    target: Option<ObjectReference>,
    labelErrors: nat,
    dependsOn: seq<string>)

  /** One entry of a `dependsOn` list. */
  datatype Ref = Ref(source: string, target: string)

  /** The index of the first item called `name`, or -1. */
  function Find(list: seq<Item>, name: string): (r: int)
    ensures -1 <= r < |list|
    ensures 0 <= r ==> list[r].name == name && forall k :: 0 <= k < r ==> list[k].name != name
    ensures r < 0 ==> forall k :: 0 <= k < |list| ==> list[k].name != name
  {
    if list == [] then -1
    else if list[0].name == name then 0
    else
      var r := Find(list[1..], name);
      assert forall k :: 1 <= k < |list| ==> list[k] == list[1..][k - 1];
      if r < 0 then -1 else r + 1
  }

  function Names(list: seq<Item>): set<string> {
    set i | 0 <= i < |list| :: list[i].name
  }

  predicate DistinctNames(list: seq<Item>) {
    forall i, j :: 0 <= i < j < |list| ==> list[i].name != list[j].name
  }

  /** The dependencies written under a name. */
  function Deps(list: seq<Item>, name: string): seq<string> {
    var i := Find(list, name);
    if i < 0 then [] else list[i].dependsOn
  }

  /** `source` depends on `target`, and both are defined. */
  predicate Edge(list: seq<Item>, source: string, target: string) {
    source in Names(list) && target in Names(list) && target in Deps(list, source)
  }

  ghost predicate Walk(list: seq<Item>, w: seq<string>) {
    && (forall n :: n in w ==> n in Names(list))
    && (forall i :: 0 <= i < |w| - 1 ==> Edge(list, w[i], w[i + 1]))
  }

  /** A non-empty walk whose last element depends on its first. */
  ghost predicate ClosedWalk(list: seq<Item>, w: seq<string>) {
    w != [] && Walk(list, w) && Edge(list, w[|w| - 1], w[0])
  }

  ghost predicate Acyclic(list: seq<Item>) {
    forall w :: !ClosedWalk(list, w)
  }

  /** Every defined dependency of an element of `order` is in `base` or earlier in `order`. */
  ghost predicate Ordered(list: seq<Item>, base: set<string>, order: seq<string>) {
    forall i, d :: 0 <= i < |order| && Edge(list, order[i], d) ==> d in base + Elements(order[..i])
  }

  /** An order in which every defined name occurs once, after everything it depends on. */
  ghost predicate DeploymentOrder(list: seq<Item>, order: seq<string>) {
    Distinct(order) && Elements(order) == Names(list) && Ordered(list, {}, order)
  }

  lemma OrderedConcat(list: seq<Item>, base: set<string>, a: seq<string>, b: seq<string>)
    requires Ordered(list, base, a)
    requires Ordered(list, base + Elements(a), b)
    ensures Ordered(list, base, a + b)
  {
    var s := a + b;
    forall i, d | 0 <= i < |s| && Edge(list, s[i], d) ensures d in base + Elements(s[..i]) {
      if i < |a| {
        assert Edge(list, a[i], d) && s[..i] == a[..i];
      } else {
        assert Edge(list, b[i - |a|], d) && s[..i] == a + b[..i - |a|];
        ElementsConcat(a, b[..i - |a|]);
      }
    }
  }

  lemma EdgeDescends(list: seq<Item>, order: seq<string>, p: nat, q: nat)
    requires DeploymentOrder(list, order)
    requires p < |order| && q < |order| && Edge(list, order[p], order[q])
    ensures q < p
  {
    assert order[q] in {} + Elements(order[..p]);
  }

  lemma {:induction false} WalkDescends(list: seq<Item>, order: seq<string>, w: seq<string>, k: nat) returns (p: nat)
    requires DeploymentOrder(list, order)
    requires Walk(list, w) && k < |w|
    ensures p < |order| && order[p] == w[k]
    ensures forall q :: 0 <= q < |order| && order[q] == w[0] ==> p <= q
  {
    assert w[k] in Names(list);
    p := Position(order, w[k]);
    if k > 0 {
      var before := WalkDescends(list, order, w, k - 1);
      assert Edge(list, w[k - 1], w[k - 1 + 1]);
      EdgeDescends(list, order, before, p);
    }
  }

  /** Along a walk every element is ordered after its successor, so no order admits a closed walk. */
  lemma OrderForbidsClosedWalk(list: seq<Item>, order: seq<string>, w: seq<string>)
    requires DeploymentOrder(list, order)
    ensures !ClosedWalk(list, w)
  {
    if ClosedWalk(list, w) {
      var first := Position(order, w[0]);
      var last := WalkDescends(list, order, w, |w| - 1);
      EdgeDescends(list, order, last, first);
    }
  }

  /** A deployment order is proof that there is no cycle. */
  lemma OrderImpliesAcyclic(list: seq<Item>, order: seq<string>)
    requires DeploymentOrder(list, order)
    ensures Acyclic(list)
  {
    forall w ensures !ClosedWalk(list, w) {
      OrderForbidsClosedWalk(list, order, w);
    }
  }

  /** A name is defined exactly when the lookup finds it. */
  lemma FindNames(list: seq<Item>, name: string)
    ensures name in Names(list) <==> 0 <= Find(list, name)
  {
    if name in Names(list) {
      var i :| 0 <= i < |list| && list[i].name == name;
    }
  }
}
