/** The mutable string set that validators create once and pass around by reference. */
module StringSets {
  import opened Basics

  class StringSet {
    var elems: set<string>

    constructor ()
      ensures elems == {}
    {
      elems := {};
    }

    predicate Has(x: string)
      reads this
    {
      x in elems
    }

    method Insert(x: string)
      modifies this
      ensures elems == old(elems) + {x}
    {
      elems := elems + {x};
    }

    method InsertAll(xs: seq<string>)
      modifies this
      ensures elems == old(elems) + Elements(xs)
    {
      for i := 0 to |xs|
        invariant elems == old(elems) + Elements(xs[..i])
      {
        Insert(xs[i]);
        assert xs[..i + 1] == xs[..i] + [xs[i]];
      }
      assert xs[..|xs|] == xs;
    }

    /** The elements in some order. */
    method UnsortedList() returns (xs: seq<string>)
      ensures Elements(xs) == elems && Distinct(xs)
    {
      xs := [];
      var rest := elems;
      while rest != {}
        invariant rest <= elems && Elements(xs) == elems - rest && Distinct(xs)
        decreases rest
      {
        var x :| x in rest;
        ElementsConcat(xs, [x]);
        xs := xs + [x];
        rest := rest - {x};
      }
    }
  }
}
