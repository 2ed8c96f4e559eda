/** Rust's `HashMap` iterates its entries in an order the program does not
    control. The model takes that order as an input: a sequence listing
    every key of the map exactly once. */
module Iteration {

  ghost predicate Enumerates<K(!new), V>(order: seq<K>, m: map<K, V>) {
    && (forall i, j :: 0 <= i < j < |order| ==> order[i] != order[j])
    && (forall k :: k in m <==> k in order)
  }

  /** The same for the keys of a map given as a set. */
  ghost predicate EnumeratesSet<K(!new)>(order: seq<K>, keys: set<K>) {
    && (forall i, j :: 0 <= i < j < |order| ==> order[i] != order[j])
    && (forall k :: k in keys <==> k in order)
  }

  /** An enumeration visits as many keys as the map has entries. */
  lemma {:induction false} EnumerationSize<K(!new), V>(order: seq<K>, m: map<K, V>)
    requires Enumerates(order, m)
    ensures |order| == |m|
  {
    if order == [] {
      assert m.Keys == {};
    } else {
      var init, k := order[..|order| - 1], order[|order| - 1];
      var rest := m - {k};
      assert k in m;
      assert forall i, j :: 0 <= i < j < |init| ==> init[i] != init[j] by {
        forall i, j | 0 <= i < j < |init| ensures init[i] != init[j] {
          assert init[i] == order[i] && init[j] == order[j];
        }
      }
      forall q ensures q in rest <==> q in init {
        if q in order {
          var i :| 0 <= i < |order| && order[i] == q;
          assert i < |order| - 1 <==> q != k;
          if i < |order| - 1 {
            assert init[i] == q;
          }
        }
        if q in init {
          var i :| 0 <= i < |init| && init[i] == q;
          assert order[i] == q;
        }
      }
      EnumerationSize(init, rest);
      assert m.Keys == rest.Keys + {k} && k !in rest.Keys;
      assert |m.Keys| == |rest.Keys| + 1;
    }
  }
}
