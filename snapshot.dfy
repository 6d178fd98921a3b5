/** What a store subscription hands to a callback: `snapshot.val()` of a
    subtree whose children are keyed by strings, listed in the order
    `Object.entries` / `Object.values` happens to enumerate them. */
module Snapshot {

  /** A value that may be null. */
  datatype Option<T> = None | Some(value: T)

  /** The JavaScript values a presence child can hold. Only `Bool(true)` is
      `=== true`. */
  datatype JsValue = Bool(b: bool) | Number(x: real) | Str(s: string) | Null | Object

  /** One child of a subtree: its key and its value. */
  type Entry<V> = (string, V)

  /** A JavaScript object never has the same key twice. */
  predicate KeysDistinct<V>(entries: seq<Entry<V>>) {
    forall i, j :: 0 <= i < j < |entries| ==> entries[i].0 != entries[j].0
  }

  /** Two enumerations list the same snapshot when they hold the same
      children, whatever their order. */
  predicate SameSnapshot<V(==)>(e1: seq<Entry<V>>, e2: seq<Entry<V>>) {
    multiset(e1) == multiset(e2)
  }

  lemma SameSnapshotSameElements<V>(e1: seq<Entry<V>>, e2: seq<Entry<V>>)
    requires SameSnapshot(e1, e2)
    ensures forall p :: p in e1 <==> p in e2
  {
    forall p
      ensures p in e1 <==> p in e2
    {
      assert p in e1 <==> p in multiset(e1);
      assert p in e2 <==> p in multiset(e2);
    }
  }
}
