/** Iteration over the entries of a java.util.HashMap: the order is not fixed,
    only that every key is visited exactly once. */
module HashIteration {

  /** order lists every key of the set exactly once. */
  predicate IsOrderOf<K>(order: seq<K>, keys: set<K>)
  {
    && |order| == |keys|
    && (forall i :: 0 <= i < |order| ==> order[i] in keys)
    && (forall k :: k in keys ==> k in order)
    && (forall i, j :: 0 <= i < j < |order| ==> order[i] != order[j])
  }

  /** An order in which HashMap's iteration may visit the keys of a map: each
      key exactly once. Which order it is is not fixed. */
  method IterationOrder<K>(keys: set<K>) returns (order: seq<K>)
    ensures IsOrderOf(order, keys)
  {
    var remaining := keys;
    order := [];
    while remaining != {}
      invariant remaining <= keys
      invariant |order| + |remaining| == |keys|
      invariant forall i :: 0 <= i < |order| ==> order[i] in keys && order[i] !in remaining
      invariant forall k :: k in keys && k !in remaining ==> k in order
      invariant forall i, j :: 0 <= i < j < |order| ==> order[i] != order[j]
      decreases remaining
    {
      var k :| k in remaining;
      assert |remaining - {k}| == |remaining| - 1;
      order := order + [k];
      remaining := remaining - {k};
    }
  }
}
