/** What merging does to every path, and which algebraic laws it keeps. */
module MergeLaws {
  import opened Basics
  import opened MergeMaps

  // ---------- Paths ----------

  /** What a value holds at the end of a path of keys. */
  function Get<T>(v: Value<T>, path: seq<string>): Option<Value<T>>
    decreases |path|
  {
    if path == [] then Some(v)
    else if v.Obj? && path[0] in Entries(v.tree) then Get(Entries(v.tree)[path[0]], path[1..])
    else None
  }

  ghost predicate LeafAt<T>(v: Value<T>, path: seq<string>, data: T) {
    Get(v, path) == Some(Leaf(data))
  }

  /** A proper prefix of the path already ends at something that is not a map. */
  ghost predicate Blocked<T>(v: Value<T>, path: seq<string>) {
    exists k :: 0 <= k < |path| && Get(v, path[..k]).Some? && Get(v, path[..k]).value.Leaf?
  }

  lemma BlockedStep<T>(v: Value<T>, path: seq<string>)
    requires path != []
    ensures Blocked(v, path) <==>
      v.Leaf? || (path[0] in Entries(v.tree) && Blocked(Entries(v.tree)[path[0]], path[1..]))
  {
    if v.Leaf? {
      assert path[..0] == [];
      assert Get(v, path[..0]) == Some(v);
    } else if path[0] in Entries(v.tree) {
      var child := Entries(v.tree)[path[0]];
      if Blocked(v, path) {
        var k :| 0 <= k < |path| && Get(v, path[..k]).Some? && Get(v, path[..k]).value.Leaf?;
        assert k > 0 && path[..k][1..] == path[1..][..k - 1];
      }
      if Blocked(child, path[1..]) {
        var k :| 0 <= k < |path| - 1 && Get(child, path[1..][..k]).Some? && Get(child, path[1..][..k]).value.Leaf?;
        assert path[..k + 1][1..] == path[1..][..k];
        assert Get(v, path[..k + 1]).Some?;
      }
    } else {
      forall k | 0 <= k < |path| ensures Get(v, path[..k]).None? || Get(v, path[..k]).value.Obj? {
        if k > 0 {
          assert path[..k][0] == path[0];
        }
      }
    }
  }

  /**
   Where both have something the values merge; where only the second has something it stays; elsewhere the
   first shows through unless the second blocks the way.
   */
  function MergedAt<T>(x: Option<Value<T>>, y: Option<Value<T>>, blocked: bool): Option<Value<T>> {
    if y.Some? then (if x.Some? then Some(MergeValue(x.value, y.value)) else y)
    else if blocked then None
    else x
  }

  lemma NotBlockedWhereDefined<T>(v: Value<T>, path: seq<string>)
    ensures Get(v, path).Some? ==> !Blocked(v, path)
    decreases |path|
  {
    if path != [] && Get(v, path).Some? {
      BlockedStep(v, path);
      NotBlockedWhereDefined(Entries(v.tree)[path[0]], path[1..]);
    }
  }

  lemma {:induction false} MergeAtPath<T>(x: Value<T>, y: Value<T>, path: seq<string>)
    ensures Get(MergeValue(x, y), path) == MergedAt(Get(x, path), Get(y, path), Blocked(y, path))
    decreases |path|
  {
    if path != [] {
      BlockedStep(y, path);
      if x.Obj? && y.Obj? && path[0] in Entries(x.tree) && path[0] in Entries(y.tree) {
        MergeAtPath(Entries(x.tree)[path[0]], Entries(y.tree)[path[0]], path[1..]);
      } else if y.Obj? && path[0] in Entries(y.tree) {
        NotBlockedWhereDefined(y, path);
      }
    }
  }

  /**
   Every leaf of `b` stays; a leaf of `a` survives exactly when `b` has nothing at its path and no leaf on the
   way; there is no other leaf.
   */
  lemma LeavesOfMerge<T>(a: Tree<T>, b: Tree<T>, path: seq<string>, data: T)
    ensures LeafAt(Obj(Merge(a, b)), path, data) <==>
      || LeafAt(Obj(b), path, data)
      || (LeafAt(Obj(a), path, data) && Get(Obj(b), path).None? && !Blocked(Obj(b), path))
  {
    MergeAtPath(Obj(a), Obj(b), path);
  }

  /** A nil map is neutral on both sides, and nothing else yields one. */
  lemma NilIsNeutral<T>(a: Tree<T>, b: Tree<T>)
    ensures Merge(Nil, b) == b && Merge(a, Nil) == a
    ensures Merge(a, b).Nil? <==> a.Nil? && b.Nil?
  {
  }

  // ---------- Idempotence ----------

  lemma {:induction false} MergeWithItself<T>(a: Tree<T>)
    ensures Merge(a, a) == a
    decreases a
  {
    if a.Made? {
      forall k | k in a.entries ensures MergeValue(a.entries[k], a.entries[k]) == a.entries[k] {
        if a.entries[k].Obj? {
          MergeWithItself(a.entries[k].tree);
        }
      }
      assert Merge(a, a).entries == a.entries;
    }
  }

  /** `z` has an entry for every entry of `x`, recursively below maps: merging into `x` then gives `z`. */
  ghost predicate Covered<T>(x: Tree<T>, z: Tree<T>)
    decreases x
  {
    x.Nil? || (z.Made? && forall k :: k in x.entries ==> k in z.entries && CoveredValue(x.entries[k], z.entries[k]))
  }

  ghost predicate CoveredValue<T>(x: Value<T>, z: Value<T>)
    decreases x
  {
    x.Obj? && z.Obj? ==> Covered(x.tree, z.tree)
  }

  lemma {:induction false} CoveredIff<T>(x: Tree<T>, z: Tree<T>)
    ensures Merge(x, z) == z <==> Covered(x, z)
    decreases x
  {
    if x.Made? && z.Made? {
      forall k | k in x.entries && k in z.entries
        ensures MergeValue(x.entries[k], z.entries[k]) == z.entries[k] <==> CoveredValue(x.entries[k], z.entries[k])
      {
        if x.entries[k].Obj? && z.entries[k].Obj? {
          CoveredIff(x.entries[k].tree, z.entries[k].tree);
        }
      }
      if Covered(x, z) {
        assert Merge(x, z).entries == z.entries;
      }
      forall k | k in x.entries
        ensures Merge(x, z) == z ==> k in z.entries && CoveredValue(x.entries[k], z.entries[k])
      {
        assert k in Merge(x, z).entries;
      }
    }
  }

  lemma {:induction false} MergedIsCovered<T>(a: Tree<T>, b: Tree<T>)
    ensures Merge(Merge(a, b), b) == Merge(a, b)
    decreases b
  {
    if a.Nil? {
      MergeWithItself(b);
    } else if b.Made? {
      var m := Merge(a, b);
      forall k | k in b.entries ensures MergeValue(m.entries[k], b.entries[k]) == m.entries[k] {
        assert m.entries[k] == if k in a.entries then MergeValue(a.entries[k], b.entries[k]) else b.entries[k];
        if b.entries[k].Obj? {
          if k in a.entries && a.entries[k].Obj? {
            MergedIsCovered(a.entries[k].tree, b.entries[k].tree);
          } else {
            MergeWithItself(b.entries[k].tree);
          }
        }
      }
      assert Merge(m, b).entries == m.entries;
    }
  }

  // ---------- Associativity ----------

  /**
   At no path reached through maps of all three is there a map, a leaf and a map, unless the last map covers
   the first.
   */
  ghost predicate Associable<T>(a: Tree<T>, b: Tree<T>, c: Tree<T>)
    decreases c
  {
    a.Made? && b.Made? && c.Made? ==>
      forall k :: k in a.entries && k in b.entries && k in c.entries ==>
        AssociableValues(a.entries[k], b.entries[k], c.entries[k])
  }

  ghost predicate AssociableValues<T>(x: Value<T>, y: Value<T>, z: Value<T>)
    decreases z
  {
    x.Obj? && z.Obj? ==> if y.Obj? then Associable(x.tree, y.tree, z.tree) else Covered(x.tree, z.tree)
  }

  ghost predicate AssociatesAt<T>(a: Tree<T>, b: Tree<T>, c: Tree<T>, k: string)
    requires a.Made? && b.Made? && c.Made?
  {
    var left, right := Merge(Merge(a, b), c).entries, Merge(a, Merge(b, c)).entries;
    k in left && k in right && left[k] == right[k]
  }

  lemma AssociativeIffPointwise<T>(a: Tree<T>, b: Tree<T>, c: Tree<T>)
    requires a.Made? && b.Made? && c.Made?
    ensures Merge(Merge(a, b), c) == Merge(a, Merge(b, c)) <==>
      forall k :: k in a.entries && k in b.entries && k in c.entries ==> AssociatesAt(a, b, c, k)
  {
    var left, right := Merge(Merge(a, b), c).entries, Merge(a, Merge(b, c)).entries;
    assert left.Keys == right.Keys;
    if forall k :: k in a.entries && k in b.entries && k in c.entries ==> AssociatesAt(a, b, c, k) {
      assert left == right;
    }
  }

  /** Merging is associative exactly on associable maps. */
  lemma {:induction false} AssociativeIff<T>(a: Tree<T>, b: Tree<T>, c: Tree<T>)
    ensures Merge(Merge(a, b), c) == Merge(a, Merge(b, c)) <==> Associable(a, b, c)
    decreases c
  {
    if a.Made? && b.Made? && c.Made? {
      forall k | k in a.entries && k in b.entries && k in c.entries
        ensures AssociatesAt(a, b, c, k) <==> AssociableValues(a.entries[k], b.entries[k], c.entries[k])
      {
        AssociativeIffValues(a.entries[k], b.entries[k], c.entries[k]);
      }
      AssociativeIffPointwise(a, b, c);
    }
  }

  lemma {:induction false} AssociativeIffValues<T>(x: Value<T>, y: Value<T>, z: Value<T>)
    ensures MergeValue(MergeValue(x, y), z) == MergeValue(x, MergeValue(y, z)) <==> AssociableValues(x, y, z)
    decreases z
  {
    if x.Obj? && z.Obj? {
      if y.Obj? {
        AssociativeIff(x.tree, y.tree, z.tree);
      } else {
        CoveredIff(x.tree, z.tree);
      }
    }
  }

  /** The condition, said by paths. */
  ghost predicate ConflictAt<T>(a: Value<T>, b: Value<T>, c: Value<T>, path: seq<string>) {
    var x, y, z := Get(a, path), Get(b, path), Get(c, path);
    && x.Some? && y.Some? && z.Some?
    && x.value.Obj? && y.value.Leaf? && z.value.Obj?
    && !Covered(x.value.tree, z.value.tree)
  }

  lemma {:induction false} AssociableIffNoConflict<T>(x: Value<T>, y: Value<T>, z: Value<T>)
    ensures AssociableValues(x, y, z) <==> forall path :: !ConflictAt(x, y, z, path)
    decreases z
  {
    if x.Obj? && z.Obj? && y.Leaf? {
      assert ConflictAt(x, y, z, []) <==> !Covered(x.tree, z.tree);
      assert forall path :: path != [] ==> Get(y, path).None?;
    } else if x.Obj? && y.Obj? && z.Obj? {
      var a, b, c := Entries(x.tree), Entries(y.tree), Entries(z.tree);
      forall k | k in a && k in b && k in c
        ensures AssociableValues(a[k], b[k], c[k]) <==> forall path :: !ConflictAt(a[k], b[k], c[k], path)
      {
        AssociableIffNoConflict(a[k], b[k], c[k]);
      }
      forall path | ConflictAt(x, y, z, path)
        ensures path != [] && path[0] in a && path[0] in b && path[0] in c
          && ConflictAt(a[path[0]], b[path[0]], c[path[0]], path[1..])
      {
      }
      forall k, path | k in a && k in b && k in c && ConflictAt(a[k], b[k], c[k], path)
        ensures ConflictAt(x, y, z, [k] + path)
      {
        assert ([k] + path)[1..] == path;
      }
    } else {
      forall path ensures !ConflictAt(x, y, z, path) {
      }
    }
  }

  /**
   Merging is associative exactly when no path is a map in the first, a leaf in the second, and in the third a
   map that does not cover the first.
   */
  lemma AssociativeIffNoConflict<T>(a: Tree<T>, b: Tree<T>, c: Tree<T>)
    ensures Merge(Merge(a, b), c) == Merge(a, Merge(b, c)) <==> forall path :: !ConflictAt(Obj(a), Obj(b), Obj(c), path)
  {
    AssociativeIff(a, b, c);
    AssociableIffNoConflict(Obj(a), Obj(b), Obj(c));
  }

  /** Neighbours that agree on what is a map leave no room for a conflict. */
  lemma AssociativeWhenKindsAgree<T>(a: Tree<T>, b: Tree<T>, c: Tree<T>)
    requires forall path :: Get(Obj(a), path).Some? && Get(Obj(b), path).Some? ==>
      (Get(Obj(a), path).value.Obj? <==> Get(Obj(b), path).value.Obj?)
    ensures Merge(Merge(a, b), c) == Merge(a, Merge(b, c))
  {
    AssociativeIffNoConflict(a, b, c);
  }

  /** A map, then a leaf, then a map that lacks a key: the two ways of merging differ. */
  lemma NotAssociative<T>(data: T)
    ensures var a, b, c := Made(map["x" := Obj(Made(map["k" := Leaf(data)]))]), Made(map["x" := Leaf(data)]),
      Made(map["x" := Obj(Made(map[]))]);
      Merge(Merge(a, b), c) != Merge(a, Merge(b, c))
  {
    var inner := Made(map["k" := Leaf(data)]);
    var a, b, c := Made(map["x" := Obj(inner)]), Made(map["x" := Leaf(data)]), Made(map["x" := Obj(Made(map[]))]);
    assert !Covered(inner, Made(map[])) by {
      assert "k" in inner.entries;
    }
    assert ConflictAt(Obj(a), Obj(b), Obj(c), ["x"]);
    AssociativeIffNoConflict(a, b, c);
  }
}
