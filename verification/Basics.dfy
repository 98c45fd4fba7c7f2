/** Datatypes shared by every part of the model. */
module Basics {

  datatype Option<+T> = None | Some(value: T) {
    function GetOr(default: T): T {
      match this
      case Some(v) => v
      case None => default
    }
  }

  function Last<T>(s: seq<T>): T
    requires s != []
  {
    s[|s| - 1]
  }

  function Init<T>(s: seq<T>): seq<T>
    requires s != []
  {
    s[..|s| - 1]
  }

  /** A property that some steps establish and others end, holding at first not
      at all: it holds after `n` steps if and only if a step established it and
      none since has ended it. */
  lemma {:induction false} SinceIff(n: nat, holds: nat -> bool, starts: nat -> bool, ends: nat -> bool)
    requires !holds(0)
    requires forall k: nat :: k < n ==> (holds(k + 1) <==> starts(k) || (holds(k) && !ends(k)))
    ensures holds(n) <==> exists k: nat :: k < n && starts(k) && forall m: nat :: k < m < n ==> !ends(m)
  {
    if n == 0 {
    } else {
      SinceIff(n - 1, holds, starts, ends);
      if starts(n - 1) {
        assert forall m: nat :: n - 1 < m < n ==> !ends(m);
      }
      if holds(n - 1) && !ends(n - 1) {
        var k: nat :| k < n - 1 && starts(k) && forall m: nat :: k < m < n - 1 ==> !ends(m);
        assert forall m: nat :: k < m < n ==> !ends(m);
      }
    }
  }
}
