/** The database's ORDER BY: a set of rows listed by rank, equal ranks in any order. */
module Query {
  import opened Basics

  predicate Ascending<T>(s: seq<T>, rank: T -> int) {
    forall i, j :: 0 <= i < j < |s| ==> rank(s[i]) <= rank(s[j])
  }

  method OrderBy<T(==, !new)>(rows: set<T>, rank: T -> int) returns (out: seq<T>)
    ensures NoDup(out) && Elems(out) == rows && Ascending(out, rank)
  {
    out := [];
    var rest := rows;
    while rest != {}
      invariant rest <= rows && (forall x :: x in out <==> x in rows - rest)
      invariant NoDup(out) && Ascending(out, rank)
      invariant forall x, y :: x in out && y in rest ==> rank(x) <= rank(y)
      decreases rest
    {
      LeastExists(rest, rank);
      var x :| x in rest && forall y :: y in rest ==> rank(x) <= rank(y);
      out := out + [x];
      rest := rest - {x};
    }
  }
}
