/** Tables that start every key at zero and add to it, keys in the order they first appear. */
module Tally {
  type Table<K, V> = seq<(K, V)>

  function AddTo<K(==), V>(table: Table<K, V>, add: (V, V) -> V, key: K, v: V): Table<K, V> {
    if table == [] then [(key, v)]
    else if table[0].0 == key then [(key, add(table[0].1, v))] + table[1..]
    else [table[0]] + AddTo(table[1..], add, key, v)
  }

  /** What stands under `key`. */
  function At<K(==), V>(table: Table<K, V>, zero: V, key: K): V {
    if table == [] then zero else if table[0].0 == key then table[0].1 else At(table[1..], zero, key)
  }

  /** One measure of the entries, summed over the table. */
  function Total<K, V>(table: Table<K, V>, measure: V -> nat): nat {
    if table == [] then 0 else measure(table[0].1) + Total(table[1..], measure)
  }

  ghost predicate Additive<V(!new)>(add: (V, V) -> V, measure: V -> nat) {
    forall x, y :: measure(add(x, y)) == measure(x) + measure(y)
  }

  lemma {:induction false} AddToTotal<K, V(!new)>(table: Table<K, V>, add: (V, V) -> V, key: K, v: V, measure: V -> nat)
    requires Additive(add, measure)
    ensures Total(AddTo(table, add, key, v), measure) == Total(table, measure) + measure(v)
  {
    if table != [] {
      if table[0].0 == key {
        assert ([(key, add(table[0].1, v))] + table[1..])[1..] == table[1..];
      } else {
        AddToTotal(table[1..], add, key, v, measure);
        assert ([table[0]] + AddTo(table[1..], add, key, v))[1..] == AddTo(table[1..], add, key, v);
      }
    }
  }

  lemma AtCons<K, V>(row: (K, V), rest: Table<K, V>, zero: V, k: K)
    ensures At([row] + rest, zero, k) == if row.0 == k then row.1 else At(rest, zero, k)
  {
    assert ([row] + rest)[1..] == rest;
  }

  /** One key's entry grows, every other stays. */
  lemma {:induction false} AddToAt<K, V>(table: Table<K, V>, add: (V, V) -> V, zero: V, key: K, v: V, k: K)
    requires add(zero, v) == v
    ensures At(AddTo(table, add, key, v), zero, k) ==
            if k == key then add(At(table, zero, k), v) else At(table, zero, k)
  {
    if table == [] {
      AtCons((key, v), [], zero, k);
      assert [(key, v)] + [] == [(key, v)];
    } else if table[0].0 == key {
      AtCons((key, add(table[0].1, v)), table[1..], zero, k);
    } else {
      AddToAt(table[1..], add, zero, key, v, k);
      AtCons(table[0], AddTo(table[1..], add, key, v), zero, k);
    }
  }
}
