/** Result and option types, and cardinality facts about sets of row numbers. */
module Wrappers {

  datatype Option<+T> = None | Some(value: T) {
    function GetOr(default: T): T {
      if Some? then value else default
    }
  }

  datatype Result<+R, +E> = Success(value: R) | Failure(error: E)
}

module RowSets {

  /** A `count` over a narrower `where` clause is never larger. */
  lemma SubsetCount(a: set<nat>, b: set<nat>)
    requires a <= b
    ensures |a| <= |b|
  {
    if a != {} {
      var x :| x in a;
      SubsetCount(a - {x}, b - {x});
    }
  }

  /** Removing one matching row and adding a different one keeps the count. */
  lemma SwapCount(a: set<nat>, b: set<nat>, gone: nat, added: nat)
    requires gone in a && added !in a
    requires b == a - {gone} + {added}
    ensures |b| == |a|
  {
  }
}
