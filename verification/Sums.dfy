/** Sums over finite sets. */
module Sums {

  /** The sum of `f` over a finite set of keys. */
  ghost function SumOver<K(!new)>(keys: set<K>, f: K -> nat): (n: nat)
  {
    if keys == {} then 0 else
    var k :| k in keys;
    f(k) + SumOver(keys - {k}, f)
  }

  lemma {:induction false} SumOverRemove<K(!new)>(keys: set<K>, f: K -> nat, key: K)
    requires key in keys
    ensures SumOver(keys, f) == f(key) + SumOver(keys - {key}, f)
  {
    var k :| k in keys && SumOver(keys, f) == f(k) + SumOver(keys - {k}, f);
    if k != key {
      SumOverRemove(keys - {k}, f, key);
      SumOverRemove(keys - {key}, f, k);
      assert keys - {k} - {key} == keys - {key} - {k};
    }
  }

  lemma {:induction false} SumOverAgrees<K(!new)>(keys: set<K>, f: K -> nat, g: K -> nat)
    requires forall k :: k in keys ==> f(k) == g(k)
    ensures SumOver(keys, f) == SumOver(keys, g)
  {
    if keys != {} {
      var k :| k in keys;
      SumOverAgrees(keys - {k}, f, g);
      SumOverRemove(keys, f, k);
      SumOverRemove(keys, g, k);
    }
  }

  lemma {:induction false} SumOverZero<K(!new)>(keys: set<K>, f: K -> nat)
    requires forall k :: k in keys ==> f(k) == 0
    ensures SumOver(keys, f) == 0
  {
    if keys != {} {
      var k :| k in keys && SumOver(keys, f) == f(k) + SumOver(keys - {k}, f);
      SumOverZero(keys - {k}, f);
    }
  }
}
