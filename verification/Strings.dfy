/** Searching, splitting and joining strings at one character. */
module Strings {

  /** The first position of `c` in `s`, or -1. */
  function IndexOf(s: string, c: char): (r: int)
    ensures -1 <= r < |s|
    ensures 0 <= r ==> s[r] == c && c !in s[..r]
    ensures r < 0 <==> c !in s
  {
    if s == "" then -1
    else if s[0] == c then 0
    else
      var r := IndexOf(s[1..], c);
      assert s == [s[0]] + s[1..];
      assert 0 <= r ==> s[..r + 1] == [s[0]] + s[1..][..r];
      if r < 0 then -1 else r + 1
  }

  /** The stretches of `s` between the occurrences of `sep`. */
  function Split(s: string, sep: char): (parts: seq<string>)
    ensures parts != []
    decreases |s|
  {
    var i := IndexOf(s, sep);
    if i < 0 then [s] else [s[..i]] + Split(s[i + 1..], sep)
  }

  function Join(parts: seq<string>, sep: char): string {
    if parts == [] then ""
    else if |parts| == 1 then parts[0]
    else parts[0] + [sep] + Join(parts[1..], sep)
  }

  ghost predicate Free(parts: seq<string>, c: char) {
    forall i :: 0 <= i < |parts| ==> c !in parts[i]
  }

  lemma IndexIsFirst(s: string, c: char, k: nat)
    requires k < |s| && s[k] == c && c !in s[..k]
    ensures IndexOf(s, c) == k
  {
    assert s[k] in s;
    assert forall j :: 0 <= j < k ==> s[j] in s[..k];
  }

  lemma IndexAfter(a: string, c: char, b: string)
    requires c !in a
    ensures IndexOf(a + [c] + b, c) == |a|
  {
    assert (a + [c] + b)[..|a|] == a;
    IndexIsFirst(a + [c] + b, c, |a|);
  }

  lemma JoinCons(a: string, parts: seq<string>, sep: char)
    requires parts != []
    ensures Join([a] + parts, sep) == a + [sep] + Join(parts, sep)
  {
    assert ([a] + parts)[1..] == parts;
  }

  /** Splitting loses nothing. */
  lemma {:induction false} JoinOfSplit(s: string, sep: char)
    ensures Join(Split(s, sep), sep) == s
    ensures Free(Split(s, sep), sep)
    decreases |s|
  {
    var i := IndexOf(s, sep);
    if 0 <= i {
      var rest := Split(s[i + 1..], sep);
      JoinOfSplit(s[i + 1..], sep);
      JoinCons(s[..i], rest, sep);
      assert s == s[..i] + [sep] + s[i + 1..];
    }
  }

  /** Splitting recovers exactly the parts that were joined. */
  lemma {:induction false} SplitOfJoin(parts: seq<string>, sep: char)
    requires parts != [] && Free(parts, sep)
    ensures Split(Join(parts, sep), sep) == parts
  {
    var s := Join(parts, sep);
    if |parts| == 1 {
      assert IndexOf(s, sep) < 0;
    } else {
      var rest := Join(parts[1..], sep);
      SplitOfJoin(parts[1..], sep);
      IndexAfter(parts[0], sep, rest);
      assert s[..|parts[0]|] == parts[0] && s[|parts[0]| + 1..] == rest;
    }
  }

  /** A character that is neither the separator nor in a part is not in the joined string. */
  lemma {:induction false} JoinFree(parts: seq<string>, sep: char, c: char)
    requires Free(parts, c) && c != sep
    ensures c !in Join(parts, sep)
  {
    if |parts| > 1 {
      JoinFree(parts[1..], sep, c);
    }
  }

  /** Splitting in two is the same as having exactly one separator. */
  lemma SplitInTwo(a: string, sep: char, b: string)
    requires sep !in a && sep !in b
    ensures Split(a + [sep] + b, sep) == [a, b]
  {
    SplitOfJoin([a, b], sep);
    assert Join([a, b], sep) == a + [sep] + Join([b], sep);
    assert [a, b][1..] == [b];
  }

  lemma TwoParts(s: string, sep: char)
    requires |Split(s, sep)| == 2
    ensures var p := Split(s, sep);
      s == p[0] + [sep] + p[1] && sep !in p[0] && sep !in p[1] && IndexOf(s, sep) == |p[0]|
  {
    var p := Split(s, sep);
    JoinOfSplit(s, sep);
    assert p[1..] == [p[1]];
    assert p == [p[0], p[1]];
    IndexAfter(p[0], sep, p[1]);
  }
}
