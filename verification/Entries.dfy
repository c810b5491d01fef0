/** Maps as lists of entries: a hash map is iterated in some order and collected back. */
module Entries {

  /** Collecting pairs into a map: a repeated key keeps the last. */
  function Collect<K(==), V>(entries: seq<(K, V)>): map<K, V> {
    if entries == [] then map[]
    else
      var last := entries[|entries| - 1];
      Collect(entries[..|entries| - 1])[last.0 := last.1]
  }

  ghost predicate DistinctKeys<K, V>(entries: seq<(K, V)>) {
    forall i, j :: 0 <= i < j < |entries| ==> entries[i].0 != entries[j].0
  }

  /** One of the orders in which a map can be iterated. */
  ghost predicate Iterates<K, V>(order: seq<(K, V)>, m: map<K, V>) {
    && DistinctKeys(order)
    && (forall i :: 0 <= i < |order| ==> order[i].0 in m && m[order[i].0] == order[i].1)
    && (forall k :: k in m ==> exists i :: 0 <= i < |order| && order[i].0 == k)
  }

  lemma {:induction false} CollectMembers<K, V>(entries: seq<(K, V)>)
    ensures |Collect(entries)| <= |entries|
    ensures forall k :: k in Collect(entries)
              ==> exists i :: 0 <= i < |entries| && entries[i] == (k, Collect(entries)[k])
  {
    if entries != [] {
      var last := |entries| - 1;
      CollectMembers(entries[..last]);
      var m := Collect(entries[..last]);
      assert Collect(entries).Keys == m.Keys + {entries[last].0};
      forall k | k in Collect(entries)
        ensures exists i :: 0 <= i < |entries| && entries[i] == (k, Collect(entries)[k])
      {
        if k == entries[last].0 {
          assert entries[last] == (k, Collect(entries)[k]);
        } else {
          var i :| 0 <= i < last && entries[..last][i] == (k, m[k]);
          assert entries[i] == (k, Collect(entries)[k]);
        }
      }
    }
  }

  lemma IteratesButLast<K, V>(order: seq<(K, V)>, m: map<K, V>)
    requires Iterates(order, m) && order != []
    ensures Iterates(order[..|order| - 1], m - {order[|order| - 1].0})
  {
    var last := |order| - 1;
    var smaller := m - {order[last].0};
    forall k | k in smaller
      ensures exists i :: 0 <= i < last && order[..last][i].0 == k
    {
      var i :| 0 <= i < |order| && order[i].0 == k;
      assert order[..last][i].0 == k;
    }
  }

  /** Whatever the order, collecting gives the map back, and the order has one entry for each key. */
  lemma {:induction false} CollectIterated<K, V>(order: seq<(K, V)>, m: map<K, V>)
    requires Iterates(order, m)
    ensures Collect(order) == m && |order| == |m|
    decreases |order|
  {
    if order == [] {
      assert m == map[];
    } else {
      var last := order[|order| - 1];
      IteratesButLast(order, m);
      CollectIterated(order[..|order| - 1], m - {last.0});
      assert last.0 in m && m[last.0] == last.1;
      hide Iterates;
      assert m == (m - {last.0})[last.0 := last.1];
      assert m.Keys == (m - {last.0}).Keys + {last.0};
    }
  }

  /** A map being drained: every key is either still there or among the entries taken. */
  ghost predicate Drained<K, V>(taken: seq<(K, V)>, left: map<K, V>, m: map<K, V>) {
    && DistinctKeys(taken)
    && (forall i :: 0 <= i < |taken| ==> taken[i].0 !in left && taken[i].0 in m && m[taken[i].0] == taken[i].1)
    && (forall k :: k in left ==> k in m && m[k] == left[k])
    && (forall k :: k in m && k !in left ==> exists i :: 0 <= i < |taken| && taken[i].0 == k)
  }

  lemma DrainOne<K, V>(taken: seq<(K, V)>, left: map<K, V>, m: map<K, V>, k: K)
    requires Drained(taken, left, m) && k in left
    ensures Drained(taken + [(k, left[k])], left - {k}, m)
    ensures |left - {k}| < |left|
  {
    var more := taken + [(k, left[k])];
    assert left.Keys == (left - {k}).Keys + {k};
    assert more[|taken|] == (k, left[k]);
    forall key | key in m && key !in left - {k}
      ensures exists i :: 0 <= i < |more| && more[i].0 == key
    {
      if key != k {
        var i :| 0 <= i < |taken| && taken[i].0 == key;
        assert more[i].0 == key;
      }
    }
  }

  lemma DrainEnds<K, V>(taken: seq<(K, V)>, m: map<K, V>)
    ensures Drained([], m, m)
    ensures Drained(taken, map[], m) ==> Iterates(taken, m)
  {
  }
}
