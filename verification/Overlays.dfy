/** Changes to a table that are kept apart from it: a value to put, or a deletion. */
module Overlays {
  import opened Wrappers

  function Puts<K, V>(changes: map<K, Option<V>>): map<K, V> {
    map k | k in changes && changes[k].Some? :: changes[k].value
  }

  function Apply<K, V>(table: map<K, V>, changes: map<K, Option<V>>): map<K, V> {
    (table - changes.Keys) + Puts(changes)
  }

  lemma Applied<K, V>(table: map<K, V>, changes: map<K, Option<V>>, k: K)
    ensures k in Apply(table, changes) <==> if k in changes then changes[k].Some? else k in table
    ensures k in Apply(table, changes) ==>
              Apply(table, changes)[k] == if k in changes then changes[k].value else table[k]
  {
  }

  /** Changes applied one after the other are the later ones over the earlier ones. */
  lemma AppliedTwice<K, V>(table: map<K, V>, c: map<K, Option<V>>, d: map<K, Option<V>>)
    ensures Apply(table, c + d) == Apply(Apply(table, c), d)
  {
    var once, twice := Apply(table, c + d), Apply(Apply(table, c), d);
    forall k ensures (k in once <==> k in twice) && (k in once ==> once[k] == twice[k]) {
      Applied(table, c + d, k);
      Applied(table, c, k);
      Applied(Apply(table, c), d, k);
    }
  }
}
