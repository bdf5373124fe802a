/** Merging nested maps, where the second map wins. */
module MergeMaps {

  /** A map value of the host language may be nil, which reads like an empty map. */
  datatype Tree<T> = Nil | Made(entries: map<string, Value<T>>)

  datatype Value<T> = Leaf(data: T) | Obj(tree: Tree<T>)

  function Entries<T>(t: Tree<T>): map<string, Value<T>> {
    if t.Nil? then map[] else t.entries
  }

  function Merge<T>(a: Tree<T>, b: Tree<T>): Tree<T>
    decreases b
  {
    if a.Nil? then b
    else if b.Nil? then a
    else Made(map k | k in a.entries.Keys + b.entries.Keys ::
      if k !in b.entries then a.entries[k]
      else if k in a.entries then MergeValue(a.entries[k], b.entries[k])
      else b.entries[k])
  }

  function MergeValue<T>(x: Value<T>, y: Value<T>): Value<T>
    decreases y
  {
    if x.Obj? && y.Obj? then Obj(Merge(x.tree, y.tree)) else y
  }

  method MergeMaps<T>(a: Tree<T>, b: Tree<T>) returns (r: Tree<T>)
    ensures r == Merge(a, b)
    decreases b
  {
    if a.Nil? {
      return b;
    }
    if b.Nil? {
      return a;
    }
    var values: map<string, Value<T>> := map[];
    var rest := b.entries.Keys;
    while rest != {}
      invariant rest <= b.entries.Keys
      invariant values.Keys == b.entries.Keys - rest
      invariant forall k :: k in values ==> values[k] == Merge(a, b).entries[k]
      decreases rest
    {
      var i :| i in rest;
      var v := b.entries[i];
      values := values[i := v];
      match v {
        case Obj(elem) =>
          if i in a.entries && a.entries[i].Obj? {
            var merged := MergeMaps(a.entries[i].tree, elem);
            values := values[i := Obj(merged)];
          }
        case Leaf(_) =>
          values := values[i := v];
      }
      rest := rest - {i};
    }
    rest := a.entries.Keys;
    while rest != {}
      invariant rest <= a.entries.Keys
      invariant values.Keys == b.entries.Keys + (a.entries.Keys - rest)
      invariant forall k :: k in values ==> values[k] == Merge(a, b).entries[k]
      decreases rest
    {
      var i :| i in rest;
      if i !in values {
        values := values[i := a.entries[i]];
      }
      rest := rest - {i};
    }
    r := Made(values);
  }
}
