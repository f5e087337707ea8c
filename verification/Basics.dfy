/** Types shared by every part of the model. */
module Basics {

  datatype Option<+T> = None | Some(value: T)

  datatype Result<+T, +E> = Ok(value: T) | Err(error: E)

  /** The portable error kinds that the modelled operations return. */
  datatype ErrorKind = Invalid | Conflict | NotFound | PreconditionFailed | Unavailable | Unauthorized

  /**
    * Keys are compared and never inspected, so a key is its rank in the order of
    * the strings at hand. Zero is the empty string, which sorts before every key.
    */
  type Key = nat

  type Time = nat

  type Bytes = seq<nat>

  function Get<K, V>(m: map<K, V>, k: K): Option<V> {
    if k in m then Some(m[k]) else None
  }

  function Min(a: int, b: int): int {
    if a < b then a else b
  }

  /** Strictly ascending: sorted and without repetition. */
  predicate Ascending(s: seq<Key>) {
    forall i, j :: 0 <= i < j < |s| ==> s[i] < s[j]
  }

  lemma {:induction false} Subset<T>(a: set<T>, b: set<T>)
    requires a <= b
    ensures |a| <= |b|
  {
    if a != {} {
      var x :| x in a;
      Subset(a - {x}, b - {x});
    }
  }
}
