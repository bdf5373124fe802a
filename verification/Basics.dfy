/** Types and small facts shared by every other module. */
module Basics {

  datatype Option<+T> = None | Some(value: T)

  /** The name and namespace of an object in the cluster. */
  datatype ObjectReference = ObjectReference(name: string, namespace: string)

  /** The elements of a sequence, as a set. */
  function Elements<T>(s: seq<T>): set<T> {
    set x | x in s
  }

  predicate Distinct<T(==)>(s: seq<T>) {
    forall i, j :: 0 <= i < j < |s| ==> s[i] != s[j]
  }

  lemma Position<T>(s: seq<T>, x: T) returns (p: nat)
    requires x in s
    ensures p < |s| && s[p] == x
  {
    p :| 0 <= p < |s| && s[p] == x;
  }

  /** Two sequences without repetitions and without a common element stay so when joined. */
  lemma DistinctConcat<T>(a: seq<T>, b: seq<T>)
    requires Distinct(a) && Distinct(b) && Elements(a) !! Elements(b)
    ensures Distinct(a + b)
  {
    forall i, j | 0 <= i < j < |a + b| ensures (a + b)[i] != (a + b)[j] {
      if i < |a| <= j {
        assert (a + b)[i] in Elements(a) && (a + b)[j] in Elements(b);
      }
    }
  }

  /** Conversely, a joined sequence without repetitions splits into two disjoint such parts. */
  lemma DistinctSplit<T>(a: seq<T>, b: seq<T>)
    requires Distinct(a + b)
    ensures Distinct(a) && Distinct(b) && Elements(a) !! Elements(b)
  {
    assert forall i :: 0 <= i < |a| ==> a[i] == (a + b)[i];
    assert forall j :: 0 <= j < |b| ==> b[j] == (a + b)[|a| + j];
  }

  lemma ElementsConcat<T>(a: seq<T>, b: seq<T>)
    ensures Elements(a + b) == Elements(a) + Elements(b)
  {
  }

  /** The size of the element set never exceeds the length, and meets it exactly without repetitions. */
  lemma {:induction false} DistinctSize<T>(s: seq<T>)
    ensures |Elements(s)| <= |s|
    ensures |Elements(s)| == |s| <==> Distinct(s)
  {
    if s != [] {
      var front, last := s[..|s| - 1], s[|s| - 1];
      DistinctSize(front);
      assert s == front + [last];
      ElementsConcat(front, [last]);
      assert Elements([last]) == {last};
      if last in front {
        assert Elements(s) == Elements(front);
        var k :| 0 <= k < |front| && front[k] == last;
        assert s[k] == s[|s| - 1];
      } else {
        assert |Elements(front) + {last}| == |Elements(front)| + 1;
        if Distinct(front) {
          DistinctConcat(front, [last]);
        } else if Distinct(s) {
          DistinctSplit(front, [last]);
        }
      }
    }
  }

  lemma Associative<T>(a: seq<T>, b: seq<T>, c: seq<T>)
    ensures a + (b + c) == (a + b) + c
  {
  }

  lemma CountsOfConcat<T>(a: seq<T>, b: seq<T>)
    ensures multiset(a + b) == multiset(a) + multiset(b)
  {
  }

  /** The same elements, each as often, in any order. */
  ghost predicate SameCounts<T>(a: seq<T>, b: seq<T>) {
    multiset(a) == multiset(b)
  }

  lemma SameCountsConcat<T>(a: seq<T>, b: seq<T>, c: seq<T>, d: seq<T>)
    requires SameCounts(a, c) && SameCounts(b, d)
    ensures SameCounts(a + b, c + d)
  {
    CountsOfConcat(a, b);
    CountsOfConcat(c, d);
  }

  lemma CancelCounts<T>(x: multiset<T>, a: multiset<T>, b: multiset<T>)
    requires x + a == x + b
    ensures a == b
  {
    forall e ensures a[e] == b[e] {
      assert (x + a)[e] == (x + b)[e];
    }
  }

  /** Take the first element of a sequence out of a rearrangement of it: the rest is rearranged, too. */
  lemma CutOut<T>(a: seq<T>, b: seq<T>) returns (front: seq<T>, back: seq<T>)
    requires SameCounts(a, b) && a != []
    ensures b == front + ([a[0]] + back)
    ensures SameCounts(a[1..], front + back)
  {
    assert a[0] in multiset(b);
    var k := Position(b, a[0]);
    front, back := b[..k], b[k + 1..];
    assert a == [a[0]] + a[1..];
    assert b == front + ([a[0]] + back);
    CountsOfConcat([a[0]], a[1..]);
    CountsOfConcat(front, [a[0]] + back);
    CountsOfConcat([a[0]], back);
    CountsOfConcat(front, back);
    CancelCounts(multiset([a[0]]), multiset(a[1..]), multiset(front + back));
  }

  lemma MoveToFront<T>(x: seq<T>, rest: seq<T>, front: seq<T>, back: seq<T>)
    requires SameCounts(rest, front + back)
    ensures SameCounts(x + rest, front + (x + back))
  {
    CountsOfConcat(x, rest);
    CountsOfConcat(front, back);
    CountsOfConcat(x, back);
    CountsOfConcat(front, x + back);
  }

  lemma {:induction false} CountDistinct<T>(s: seq<T>, x: T)
    requires Distinct(s)
    ensures multiset(s)[x] == if x in s then 1 else 0
  {
    if s != [] {
      CountDistinct(s[1..], x);
      assert s == [s[0]] + s[1..];
    }
  }

  lemma BothEmpty<T>(a: seq<T>, b: seq<T>)
    ensures a + b == [] <==> a == [] && b == []
  {
  }

  lemma FourEmpty<T>(a: seq<T>, b: seq<T>, c: seq<T>, d: seq<T>)
    ensures a + b + c + d == [] <==> a == [] && b == [] && c == [] && d == []
  {
  }

  function ConcatAll<T>(parts: seq<seq<T>>): seq<T> {
    if parts == [] then [] else ConcatAll(parts[..|parts| - 1]) + parts[|parts| - 1]
  }

  lemma ConcatAllStep<T>(parts: seq<seq<T>>, n: nat)
    requires n < |parts|
    ensures ConcatAll(parts[..n + 1]) == ConcatAll(parts[..n]) + parts[n]
  {
    assert parts[..n + 1][..n] == parts[..n];
  }

  lemma {:induction false} ConcatAllEmpty<T>(parts: seq<seq<T>>)
    ensures ConcatAll(parts) == [] <==> forall i :: 0 <= i < |parts| ==> parts[i] == []
  {
    if parts != [] {
      var front := parts[..|parts| - 1];
      ConcatAllEmpty(front);
      assert forall i :: 0 <= i < |front| ==> front[i] == parts[i];
    }
  }
}
