/** Sums of a table column over a finite set of keys. */
module Sums {
  ghost function Sum<K>(column: map<K, nat>, keys: set<K>): nat
    decreases keys
  {
    if keys == {} then 0
    else
      var k :| k in keys;
      (if k in column then column[k] else 0) + Sum(column, keys - {k})
  }

  function Entry<K>(column: map<K, nat>, k: K): nat {
    if k in column then column[k] else 0
  }

  /** The order of summation does not matter: any key can be taken first. */
  lemma {:induction false} SumTake<K>(column: map<K, nat>, keys: set<K>, k: K)
    requires k in keys
    ensures Sum(column, keys) == Entry(column, k) + Sum(column, keys - {k})
    decreases keys
  {
    var first :| first in keys && Sum(column, keys) == Entry(column, first) + Sum(column, keys - {first});
    if first != k {
      SumTake(column, keys - {first}, k);
      SumTake(column, keys - {k}, first);
      assert keys - {first} - {k} == keys - {k} - {first};
    }
  }

  lemma {:induction false} SumDisjoint<K>(column: map<K, nat>, a: set<K>, b: set<K>)
    requires a !! b
    ensures Sum(column, a + b) == Sum(column, a) + Sum(column, b)
    decreases a
  {
    if a == {} {
      assert a + b == b;
    } else {
      var k :| k in a;
      SumTake(column, a, k);
      SumTake(column, a + b, k);
      assert a + b - {k} == (a - {k}) + b;
      SumDisjoint(column, a - {k}, b);
    }
  }

  lemma {:induction false} SumAgree<K>(c: map<K, nat>, d: map<K, nat>, keys: set<K>)
    requires forall k :: k in keys ==> Entry(c, k) == Entry(d, k)
    ensures Sum(c, keys) == Sum(d, keys)
    decreases keys
  {
    if keys != {} {
      var k :| k in keys;
      SumTake(c, keys, k);
      SumTake(d, keys, k);
      SumAgree(c, d, keys - {k});
    }
  }

  lemma SumSplit<K>(column: map<K, nat>, keys: set<K>, part: set<K>)
    requires part <= keys
    ensures Sum(column, keys) == Sum(column, part) + Sum(column, keys - part)
  {
    SumDisjoint(column, part, keys - part);
    assert keys == part + (keys - part);
  }

  /** The aggregate as a loop over the rows. */
  method AddUp<K(==)>(column: map<K, nat>, keys: set<K>) returns (total: nat)
    ensures total == Sum(column, keys)
  {
    total := 0;
    var rest := keys;
    while rest != {}
      invariant rest <= keys
      invariant total + Sum(column, rest) == Sum(column, keys)
      decreases rest
    {
      var k :| k in rest;
      SumTake(column, rest, k);
      total := total + Entry(column, k);
      rest := rest - {k};
    }
  }
}
