/** Ranging over a Go map visits every key exactly once, in an order the
    language leaves unspecified. The model receives that order as an explicit
    sequence of keys and requires only that it enumerates the key set. */
module Iteration {

  predicate Distinct(s: seq<string>) {
    forall i, j :: 0 <= i < j < |s| ==> s[i] != s[j]
  }

  /** `order` lists each key of `keys` exactly once and nothing else. */
  predicate IsEnumeration(order: seq<string>, keys: set<string>) {
    && Distinct(order)
    && (forall x :: x in keys ==> x in order)
    && (forall i :: 0 <= i < |order| ==> order[i] in keys)
  }

  /** Dropping one visited key leaves an enumeration of the other keys. */
  lemma EnumerationRemove(order: seq<string>, keys: set<string>, j: int)
    requires IsEnumeration(order, keys) && 0 <= j < |order|
    ensures IsEnumeration(order[..j] + order[j + 1..], keys - {order[j]})
  {
  }

  /** A map iteration runs once per key. */
  lemma {:induction false} EnumerationLength(order: seq<string>, keys: set<string>)
    requires IsEnumeration(order, keys)
    ensures |order| == |keys|
    decreases |order|
  {
    if |order| == 0 {
      assert keys == {};
    } else {
      EnumerationRemove(order, keys, 0);
      assert order[..0] + order[1..] == order[1..];
      EnumerationLength(order[1..], keys - {order[0]});
      assert order[0] in keys;
    }
  }
}
