/** Sets listed in some order. */
module Collections {
  /** `order` lists the members of `ids` once each: one possible row order of a query. */
  ghost predicate Enumerates<T(!new)>(order: seq<T>, ids: set<T>) {
    && (forall x :: x in order <==> x in ids)
    && (forall i, j :: 0 <= i < j < |order| ==> order[i] != order[j])
  }

  /** The rows of an unordered query, in whatever order the database finds them. */
  method InSomeOrder<T(!new, ==)>(rows: set<T>) returns (order: seq<T>)
    ensures Enumerates(order, rows)
  {
    order := [];
    var rest := rows;
    while rest != {}
      invariant Enumerates(order, rows - rest) && rest <= rows
      decreases rest
    {
      var x :| x in rest;
      order := order + [x];
      rest := rest - {x};
    }
    assert rows - rest == rows;
  }

  lemma {:induction false} EnumeratedSize<T(!new)>(order: seq<T>, rows: set<T>)
    requires Enumerates(order, rows)
    ensures |order| == |rows|
  {
    if |order| > 0 {
      var n := |order| - 1;
      assert order == order[..n] + [order[n]];
      EnumeratedSize(order[..n], rows - {order[n]});
    } else {
      assert rows == {};
    }
  }
}
