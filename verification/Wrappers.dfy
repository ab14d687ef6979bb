/** What the modules share: the optional value used where the source has null or undefined, and unused numbers. */
module Wrappers {

  datatype Option<+T> = None | Some(value: T) {
    function UnwrapOr(default: T): T {
      match this
      case Some(v) => v
      case None => default
    }
  }

  /** There is always a number that is not in use yet. */
  lemma {:induction false} FreshNumber(used: set<nat>) returns (n: nat)
    ensures forall m :: m in used ==> m < n
    decreases |used|
  {
    n := 0;
    if used != {} {
      var m :| m in used;
      var rest := used - {m};
      var k := FreshNumber(rest);
      n := if k > m then k else m + 1;
      forall x | x in used ensures x < n {
        assert x == m || x in rest;
      }
    }
  }
}
