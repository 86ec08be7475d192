/** The least element of a finite set of numbers, where an ordered map begins. */
module Least {

  predicate IsLeast(keys: set<nat>, id: nat) {
    id in keys && forall k :: k in keys ==> id <= k
  }

  lemma {:induction false} LeastExists(keys: set<nat>)
    requires keys != {}
    ensures exists id :: IsLeast(keys, id)
    decreases |keys|
  {
    var k :| k in keys;
    var rest := keys - {k};
    assert keys == rest + {k};
    if rest == {} {
      assert IsLeast(keys, k);
    } else {
      LeastExists(rest);
      var least :| IsLeast(rest, least);
      assert IsLeast(keys, if least <= k then least else k);
    }
  }

  lemma LeastUnique(keys: set<nat>, id1: nat, id2: nat)
    requires IsLeast(keys, id1) && IsLeast(keys, id2)
    ensures id1 == id2
  {
  }
}
