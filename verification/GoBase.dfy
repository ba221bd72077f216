/** Fixed-width integers, the (value, error) result type, and how Go ranges over a map. */
module GoBase {
  type uint16 = x: int | 0 <= x < 0x1_0000
  type uint32 = x: int | 0 <= x < 0x1_0000_0000
  type byte = x: int | 0 <= x < 0x100

  datatype Result<+T, +E> = Ok(value: T) | Err(error: E)

  predicate Distinct<T(==)>(s: seq<T>) {
    forall i, j | 0 <= i < j < |s| :: s[i] != s[j]
  }

  /** `order` lists the keys of `m`, each once: one of the orders Go may range over it. */
  ghost predicate Enumerates<K(!new), V>(order: seq<K>, m: map<K, V>) {
    Distinct(order) && forall k :: k in order <==> k in m
  }

  /** Ranging over a map: some order of its keys, and the caller learns no more than that. */
  method RangeOrder<K(!new, ==), V>(m: map<K, V>) returns (order: seq<K>)
    ensures Enumerates(order, m)
  {
    order := [];
    var rest := m.Keys;
    while rest != {}
      invariant rest <= m.Keys && Distinct(order)
      invariant forall k :: k in order <==> k in m && k !in rest
      decreases |rest|
    {
      var k :| k in rest;
      rest := rest - {k};
      order := order + [k];
    }
  }
}
