/**
 String slices: a length and a backing array that several slices may share.  Appending writes into the
 backing array as long as there is room, and moves to a fresh array otherwise.
 */
module Slices {

  datatype Slice = Slice(buf: array<string>, len: nat) {
    predicate Valid() {
      len <= buf.Length
    }

    function Contents(): seq<string>
      requires Valid()
      reads buf
    {
      buf[..len]
    }
  }

  method Empty() returns (s: Slice)
    ensures s.Valid() && s.Contents() == [] && fresh(s.buf)
  {
    var none := new string[0];
    s := Slice(none, 0);
  }

  /** By how much the array grows is up to the allocator. */
  method Append(s: Slice, x: string) returns (r: Slice)
    requires s.Valid()
    modifies s.buf
    ensures r.Valid() && r.Contents() == old(s.Contents()) + [x]
    ensures s.Contents() == old(s.Contents())
    ensures r.buf == s.buf || (fresh(r.buf) && s.buf[..] == old(s.buf[..]))
  {
    if s.len < s.buf.Length {
      s.buf[s.len] := x;
      r := Slice(s.buf, s.len + 1);
    } else {
      var capacity: nat :| s.len < capacity;
      var grown := new string[capacity](_ => "");
      forall i | 0 <= i < s.len {
        grown[i] := s.buf[i];
      }
      grown[s.len] := x;
      r := Slice(grown, s.len + 1);
    }
  }

  function Buffers(slices: seq<Slice>): set<array<string>> {
    set s | s in slices :: s.buf
  }

  /** The slices hold the given contents, one by one. */
  ghost predicate Hold(slices: seq<Slice>, contents: seq<seq<string>>)
    reads Buffers(slices)
  {
    |slices| == |contents| &&
    forall i :: 0 <= i < |slices| ==> slices[i].Valid() && slices[i].Contents() == contents[i]
  }

  lemma HoldConcat(a: seq<Slice>, b: seq<Slice>, x: seq<seq<string>>, y: seq<seq<string>>)
    requires Hold(a, x) && Hold(b, y)
    ensures Hold(a + b, x + y)
    ensures Buffers(a + b) == Buffers(a) + Buffers(b)
  {
  }
}
