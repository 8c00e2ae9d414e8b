/** A JavaScript `Map`: entries in the order in which their keys were first set. */
module OrderedMap {
  datatype Ordered<K(==), V> = Ordered(order: seq<K>, entries: map<K, V>)

  function Empty<K, V>(): Ordered<K, V> { Ordered([], map[]) }

  ghost predicate Valid<K(!new), V>(m: Ordered<K, V>) {
    (forall i, j :: 0 <= i < j < |m.order| ==> m.order[i] != m.order[j]) &&
    (forall k :: k in m.entries <==> k in m.order)
  }

  /** Setting a key again keeps its place. */
  function Put<K(==), V>(m: Ordered<K, V>, k: K, v: V): Ordered<K, V> {
    Ordered(if k in m.entries then m.order else m.order + [k], m.entries[k := v])
  }

  function Without<K(==,!new)>(order: seq<K>, k: K): (r: seq<K>)
    ensures forall x :: x in r <==> x in order && x != k
  {
    if order == [] then []
    else if order[0] == k then Without(order[1..], k)
    else [order[0]] + Without(order[1..], k)
  }

  function Drop<K(==,!new), V>(m: Ordered<K, V>, k: K): Ordered<K, V> {
    Ordered(Without(m.order, k), m.entries - {k})
  }

  lemma {:induction false} PutValid<K(!new), V>(m: Ordered<K, V>, k: K, v: V)
    requires Valid(m)
    ensures Valid(Put(m, k, v))
  {
  }

  lemma {:induction false} WithoutDistinct<K(!new)>(order: seq<K>, k: K)
    requires forall i, j :: 0 <= i < j < |order| ==> order[i] != order[j]
    ensures var r := Without(order, k); forall i, j :: 0 <= i < j < |r| ==> r[i] != r[j]
    ensures |Without(order, k)| == |order| - (if k in order then 1 else 0)
  {
    if order != [] {
      var rest := order[1..];
      WithoutDistinct(rest, k);
      assert order[0] !in rest;
      var r := Without(rest, k);
      assert order[0] !in r;
    }
  }

  lemma {:induction false} DropValid<K(!new), V>(m: Ordered<K, V>, k: K)
    requires Valid(m)
    ensures Valid(Drop(m, k))
    ensures |Drop(m, k).order| == |m.order| - (if k in m.entries then 1 else 0)
  {
    WithoutDistinct(m.order, k);
  }

  /** Dropping the key set last takes the end off. */
  lemma {:induction false} WithoutLast<K(!new)>(order: seq<K>, k: K)
    requires k !in order
    ensures Without(order + [k], k) == order
  {
    if order != [] {
      assert (order + [k])[1..] == order[1..] + [k];
      WithoutLast(order[1..], k);
    } else {
      assert (order + [k])[1..] == [];
    }
  }

  lemma {:induction false} PutDrop<K(!new), V>(m: Ordered<K, V>, k: K, v: V)
    requires Valid(m) && k !in m.entries
    ensures Drop(Put(m, k, v), k) == m
  {
    WithoutLast(m.order, k);
    assert m.entries[k := v] - {k} == m.entries;
  }
}
