/** Counting the elements of sequences. */
module Counting {
  import opened Basics

  /** How often an element occurs. */
  ghost function Times<T>(s: seq<T>, x: T): nat {
    multiset(s)[x]
  }

  function Once(condition: bool): nat {
    if condition then 1 else 0
  }

  lemma TimesConcat<T>(a: seq<T>, b: seq<T>, x: T)
    ensures Times(a + b, x) == Times(a, x) + Times(b, x)
  {
    CountsOfConcat(a, b);
  }

  lemma TimesOfFour<T>(a: seq<T>, b: seq<T>, c: seq<T>, d: seq<T>, x: T)
    ensures Times(a + b + c + d, x) == Times(a, x) + Times(b, x) + Times(c, x) + Times(d, x)
  {
    TimesConcat(a, b, x);
    TimesConcat(a + b, c, x);
    TimesConcat(a + b + c, d, x);
  }

  lemma TimesOfFive<T>(a: seq<T>, b: seq<T>, c: seq<T>, d: seq<T>, e: seq<T>, x: T)
    ensures Times(a + b + c + d + e, x) == Times(a, x) + Times(b, x) + Times(c, x) + Times(d, x) + Times(e, x)
  {
    TimesOfFour(a, b, c, d, x);
    TimesConcat(a + b + c + d, e, x);
  }

  lemma TimesOfSix<T>(a: seq<T>, b: seq<T>, c: seq<T>, d: seq<T>, e: seq<T>, f: seq<T>, x: T)
    ensures Times(a + b + c + d + e + f, x) ==
      Times(a, x) + Times(b, x) + Times(c, x) + Times(d, x) + Times(e, x) + Times(f, x)
  {
    TimesOfFive(a, b, c, d, e, x);
    TimesConcat(a + b + c + d + e, f, x);
  }

  lemma TimesOfAbsent<T>(s: seq<T>, x: T)
    ensures Times(s, x) == 0 <==> x !in s
  {
    assert x in s <==> x in multiset(s);
  }

  lemma PrefixStep<T>(s: seq<T>, i: nat)
    requires i < |s|
    ensures s[..i + 1] == s[..i] + [s[i]]
  {
  }

  /** The image of a sequence under a function that tells its arguments apart. */
  lemma {:induction false} TimesMapped<A, B>(s: seq<A>, t: seq<B>, f: A -> B, x: A)
    requires |t| == |s| && (forall k :: 0 <= k < |s| ==> t[k] == f(s[k]))
    requires forall a, b :: f(a) == f(b) ==> a == b
    ensures Times(t, f(x)) == Times(s, x)
  {
    if s != [] {
      var i: nat := |s| - 1;
      TimesMapped(s[..i], t[..i], f, x);
      assert s == s[..i] + [s[i]] && t == t[..i] + [t[i]];
      TimesConcat(s[..i], [s[i]], x);
      TimesConcat(t[..i], [t[i]], f(x));
    }
  }
}
