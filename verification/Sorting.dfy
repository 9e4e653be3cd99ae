/** A stable sort by a caller-given order, the contract Python's and the shell's sorts are used for. */
module Sorting {

  ghost predicate TotalPreorder<T(!new)>(le: (T, T) -> bool) {
    && (forall x, y :: le(x, y) || le(y, x))
    && (forall x, y, z :: le(x, y) && le(y, z) ==> le(x, z))
  }

  ghost predicate Ordered<T>(xs: seq<T>, le: (T, T) -> bool) {
    forall i, j :: 0 <= i < j < |xs| ==> le(xs[i], xs[j])
  }

  /** Insert after everything that may stay before it. */
  function Insert<T>(x: T, xs: seq<T>, le: (T, T) -> bool): seq<T> {
    if xs == [] then [x]
    else if le(xs[|xs| - 1], x) then xs + [x]
    else Insert(x, xs[..|xs| - 1], le) + [xs[|xs| - 1]]
  }

  function Sort<T>(xs: seq<T>, le: (T, T) -> bool): seq<T> {
    if xs == [] then [] else Insert(xs[|xs| - 1], Sort(xs[..|xs| - 1], le), le)
  }

  lemma {:induction false} InsertPermutes<T>(x: T, xs: seq<T>, le: (T, T) -> bool)
    ensures multiset(Insert(x, xs, le)) == multiset(xs) + multiset{x}
  {
    if xs != [] {
      InsertPermutes(x, xs[..|xs| - 1], le);
      assert xs == xs[..|xs| - 1] + [xs[|xs| - 1]];
    }
  }

  lemma {:induction false} InsertOrders<T(!new)>(x: T, xs: seq<T>, le: (T, T) -> bool)
    requires TotalPreorder(le) && Ordered(xs, le)
    ensures Ordered(Insert(x, xs, le), le)
  {
    if xs != [] && !le(xs[|xs| - 1], x) {
      var front, last := xs[..|xs| - 1], xs[|xs| - 1];
      InsertOrders(x, front, le);
      InsertPermutes(x, front, le);
      var r := Insert(x, front, le);
      forall i | 0 <= i < |r| ensures le(r[i], last) {
        assert r[i] in multiset(r);
        assert r[i] == x || r[i] in front;
      }
    }
  }

  lemma {:induction false} SortPermutes<T>(xs: seq<T>, le: (T, T) -> bool)
    ensures multiset(Sort(xs, le)) == multiset(xs) && |Sort(xs, le)| == |xs|
  {
    if xs != [] {
      SortPermutes(xs[..|xs| - 1], le);
      InsertPermutes(xs[|xs| - 1], Sort(xs[..|xs| - 1], le), le);
      assert xs == xs[..|xs| - 1] + [xs[|xs| - 1]];
      assert |multiset(Sort(xs, le))| == |multiset(xs)|;
    }
  }

  lemma {:induction false} SortOrders<T(!new)>(xs: seq<T>, le: (T, T) -> bool)
    requires TotalPreorder(le)
    ensures Ordered(Sort(xs, le), le)
  {
    if xs != [] {
      SortOrders(xs[..|xs| - 1], le);
      InsertOrders(xs[|xs| - 1], Sort(xs[..|xs| - 1], le), le);
    }
  }

  lemma SortMembers<T>(xs: seq<T>, le: (T, T) -> bool)
    ensures forall x :: x in Sort(xs, le) <==> x in xs
  {
    SortPermutes(xs, le);
    forall x ensures x in Sort(xs, le) <==> x in xs {
      assert x in multiset(Sort(xs, le)) <==> x in multiset(xs);
    }
  }
}
