/** Listing the elements of a set, in whatever order a map or a hash yields them. */
module Listing {

  /** `order` lists every element of `all` exactly once. */
  ghost predicate Lists<T>(order: seq<T>, all: set<T>) {
    && (forall i :: 0 <= i < |order| ==> order[i] in all)
    && (forall x :: x in all ==> x in order)
    && (forall i, j :: 0 <= i < j < |order| ==> order[i] != order[j])
  }

  method AnyOf<T>(s: set<T>) returns (x: T)
    requires s != {}
    ensures x in s
  {
    assert (forall y :: y !in s) ==> s == {};
    x :| x in s;
  }

  /** The elements in some order. */
  method ListAll<T(==)>(all: set<T>) returns (order: seq<T>)
    ensures Lists(order, all)
  {
    order := [];
    var todo := all;
    while todo != {}
      invariant todo <= all
      invariant Lists(order, all - todo)
      decreases todo
    {
      var x := AnyOf(todo);
      order, todo := order + [x], todo - {x};
    }
  }
}
