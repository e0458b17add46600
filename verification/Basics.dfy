/** Identifiers, clocks and the few sequence facts every other module uses. */
module Basics {

  type Uid = nat   // a user's UUID
  type Gid = nat   // a group's UUID
  type Iid = nat   // an invite's UUID
  type Time = int  // an instant, in nanoseconds since the Unix epoch

  const SECOND: Time := 1_000_000_000

  datatype Option<+T> = None | Some(value: T)

  predicate NoDup<T(==)>(s: seq<T>) {
    forall i, j :: 0 <= i < j < |s| ==> s[i] != s[j]
  }

  function Elems<T>(s: seq<T>): set<T> {
    set x | x in s
  }

  /** In a non-empty finite set some element has the least rank. */
  lemma {:induction false} LeastExists<T(!new)>(s: set<T>, rank: T -> int)
    requires s != {}
    ensures exists x :: x in s && forall y :: y in s ==> rank(x) <= rank(y)
  {
    var x :| x in s;
    if s != {x} {
      LeastExists(s - {x}, rank);
      var m :| m in s - {x} && forall y :: y in s - {x} ==> rank(m) <= rank(y);
      var best := if rank(m) <= rank(x) then m else x;
      assert best in s && forall y :: y in s ==> rank(best) <= rank(y);
    } else {
      assert forall y :: y in s ==> rank(x) <= rank(y);
    }
  }
}
