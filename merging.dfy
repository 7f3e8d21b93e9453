/** The dictionary merge shared by the data-time computations: every entry of the incoming
    map is folded into the accumulated map with a combining rule, and an entry the
    accumulated map lacks is taken as it is. */
module Merging {
  import opened EventLog

  /** The merged map: the union of the keys, combined where both maps have the key. */
  function MergeWith<V>(combine: (V, V) -> V, known: map<AssetKey, V>, incoming: map<AssetKey, V>)
    : (merged: map<AssetKey, V>)
    ensures merged.Keys == known.Keys + incoming.Keys
    ensures forall k :: k in known && k !in incoming ==> merged[k] == known[k]
    ensures forall k :: k !in known && k in incoming ==> merged[k] == incoming[k]
    ensures forall k :: k in known && k in incoming ==> merged[k] == combine(known[k], incoming[k])
  {
    map k | k in known.Keys + incoming.Keys ::
      if k in known && k in incoming then combine(known[k], incoming[k])
      else if k in incoming then incoming[k]
      else known[k]
  }

  /** `for key, value in incoming.items(): known[key] = combine(known.get(key, value), value)`,
      in place over a working copy; `combine` is idempotent, so a key new to `known` keeps its
      value. */
  method MergeInto<V>(combine: (V, V) -> V, known: map<AssetKey, V>, incoming: map<AssetKey, V>)
    returns (merged: map<AssetKey, V>)
    requires forall v :: combine(v, v) == v
    ensures merged == MergeWith(combine, known, incoming)
  {
    merged := known;
    var todo := incoming.Keys;
    while todo != {}
      invariant todo <= incoming.Keys
      invariant merged == MergeWith(combine, known, map k | k in incoming && k !in todo :: incoming[k])
      decreases todo
    {
      var key :| key in todo;
      var value := incoming[key];
      var current := if key in merged then merged[key] else value;
      merged := merged[key := combine(current, value)];
      todo := todo - {key};
    }
    assert (map k | k in incoming && k !in todo :: incoming[k]) == incoming;
  }

  /** With a commutative rule the merge does not depend on which map came first. */
  lemma MergeWithCommutative<V>(combine: (V, V) -> V, a: map<AssetKey, V>, b: map<AssetKey, V>)
    requires forall x, y :: combine(x, y) == combine(y, x)
    ensures MergeWith(combine, a, b) == MergeWith(combine, b, a)
  {
  }

  /** With an associative rule, merging parent after parent gives the same map whatever the
      grouping. */
  lemma MergeWithAssociative<V>(combine: (V, V) -> V, a: map<AssetKey, V>, b: map<AssetKey, V>, c: map<AssetKey, V>)
    requires forall x, y, z :: combine(combine(x, y), z) == combine(x, combine(y, z))
    ensures MergeWith(combine, MergeWith(combine, a, b), c) == MergeWith(combine, a, MergeWith(combine, b, c))
  {
  }
}
