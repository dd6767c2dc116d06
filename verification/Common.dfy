/** Values that may be absent, operations that may be refused, and a pass over the rows of a table. */
module Common {
  datatype Option<+T> = None | Some(value: T)

  datatype Result<+T, +E> = Ok(value: T) | Err(error: E)

  function Passing<K>(keys: set<K>, test: K -> bool): set<K> {
    set k | k in keys && test(k)
  }

  /** The same rows, changed where hit. */
  ghost predicate ChangedAt<K(!new), V>(before: map<K, V>, after: map<K, V>, hits: set<K>, change: V -> V) {
    && after.Keys == before.Keys
    && forall k :: k in before ==> after[k] == if k in hits then change(before[k]) else before[k]
  }

  /** Go through some rows, change those that pass the test, and count them. */
  method ChangeWhere<K(==, !new), V>(rows: map<K, V>, keys: set<K>, test: K -> bool, change: V -> V)
    returns (rows': map<K, V>, count: nat)
    requires keys <= rows.Keys
    ensures ChangedAt(rows, rows', Passing(keys, test), change)
    ensures count == |Passing(keys, test)|
  {
    rows', count := rows, 0;
    var todo := keys;
    ghost var hits: set<K> := {};
    while todo != {}
      invariant todo <= keys && hits == Passing(keys - todo, test)
      invariant ChangedAt(rows, rows', hits, change)
      invariant count == |hits|
      decreases todo
    {
      var k :| k in todo;
      OneMorePasses(keys - todo, test, k);
      assert keys - todo + {k} == keys - (todo - {k});
      todo := todo - {k};
      if test(k) {
        OneMoreChange(rows, rows', hits, change, k);
        rows' := rows'[k := change(rows'[k])];
        hits, count := hits + {k}, count + 1;
      }
    }
    assert keys - todo == keys;
  }

  lemma OneMoreChange<K(!new), V>(before: map<K, V>, after: map<K, V>, hits: set<K>, change: V -> V, k: K)
    requires ChangedAt(before, after, hits, change) && k in before && k !in hits
    ensures ChangedAt(before, after[k := change(after[k])], hits + {k}, change)
  {
  }

  lemma OneMorePasses<K>(keys: set<K>, test: K -> bool, k: K)
    requires k !in keys
    ensures k !in Passing(keys, test)
    ensures Passing(keys + {k}, test) == Passing(keys, test) + if test(k) then {k} else {}
  {
  }
}
